/**
 Charts: hour rows grouped into hours, days, ISO weeks or calendar months. Times are seconds
 of Unix time in UTC.
 */
module Analytics {
  import opened Prelude

  datatype Interval = Hour | Day | Week | Month

  const MAX_POINTS: nat := 500
  const HOUR: nat := 3600
  const DAY: nat := 86400

  // ----- the calendar

  predicate Leap(year: int) {
    year % 4 == 0 && (year % 100 != 0 || year % 400 == 0)
  }

  /** Days of a month; months are counted from January 1970. */
  function MonthLength(m: nat): (n: nat)
    ensures 28 <= n <= 31
  {
    var year, month := 1970 + m / 12, m % 12;
    if month == 1 then (if Leap(year) then 29 else 28)
    else if month == 3 || month == 5 || month == 8 || month == 10 then 30 else 31
  }

  /** Day number of the first of a month. */
  function MonthStart(m: nat): nat {
    if m == 0 then 0 else MonthStart(m - 1) + MonthLength(m - 1)
  }

  lemma {:induction false} MonthStartGrows(a: nat, b: nat)
    requires a < b
    ensures MonthStart(a) + MonthLength(a) <= MonthStart(b)
  {
    hide MonthLength;
    if a < b - 1 {
      MonthStartGrows(a, b - 1);
    }
  }

  /** The month a day lies in, searched from month `m` on. */
  function MonthFrom(day: nat, m: nat): (k: nat)
    requires MonthStart(m) <= day
    ensures m <= k && MonthStart(k) <= day < MonthStart(k) + MonthLength(k)
    decreases day - MonthStart(m)
  {
    if day < MonthStart(m) + MonthLength(m) then m else MonthFrom(day, m + 1)
  }

  function MonthOf(day: nat): nat {
    MonthFrom(day, 0)
  }

  lemma {:induction false} MonthOfUnique(day: nat, k: nat)
    requires MonthStart(k) <= day < MonthStart(k) + MonthLength(k)
    ensures MonthOf(day) == k
  {
    hide MonthLength;
    var m := MonthOf(day);
    if m < k {
      MonthStartGrows(m, k);
    } else if k < m {
      MonthStartGrows(k, m);
    }
  }

  // ----- buckets

  /** Thursday, 1 January 1970, is day zero; weeks start on Monday. */
  function WeekOffset(day: nat): nat {
    ((day + 4) % 7 + 6) % 7
  }

  function BucketStart(t: nat, i: Interval): int {
    var day := t / DAY;
    match i
    case Hour => t - t % HOUR
    case Day => day * DAY
    case Week => (day - WeekOffset(day)) * DAY
    case Month => MonthStart(MonthOf(day)) * DAY
  }

  /** The end of the bucket that starts at `s`. */
  function BucketEnd(s: int, i: Interval): int {
    match i
    case Hour => s + HOUR
    case Day => s + DAY
    case Week => s + 7 * DAY
    case Month => if s < 0 then s + DAY else (MonthStart(MonthOf(s / DAY)) + MonthLength(MonthOf(s / DAY))) * DAY
  }

  /** `s` is the start of some bucket. */
  ghost predicate IsStart(s: int, i: Interval) {
    match i
    case Hour => s % HOUR == 0
    case Day => s % DAY == 0
    case Week => s % DAY == 0 && (s / DAY + 3) % 7 == 0
    case Month => exists m: nat :: s == MonthStart(m) * DAY
  }

  lemma {:induction false} MonthBounds(t: nat)
    ensures BucketStart(t, Month) <= t < BucketEnd(BucketStart(t, Month), Month)
    ensures IsStart(BucketStart(t, Month), Month)
  {
    var day := t / DAY;
    var m := MonthOf(day);
    var s := MonthStart(m) * DAY;
    assert s / DAY == MonthStart(m);
    MonthOfUnique(MonthStart(m), m);
    hide MonthLength, MonthStart, MonthFrom;
    assert day + 1 <= MonthStart(m) + MonthLength(m);
    assert (day + 1) * DAY <= (MonthStart(m) + MonthLength(m)) * DAY;
  }

  lemma {:induction false} WeekOffsetFacts(day: nat)
    ensures WeekOffset(day) < 7 && (day - WeekOffset(day) + 3) % 7 == 0
  {
  }

  lemma {:induction false} WeekBounds(t: nat)
    ensures BucketStart(t, Week) <= t < BucketEnd(BucketStart(t, Week), Week)
    ensures IsStart(BucketStart(t, Week), Week)
  {
    hide WeekOffset;
    var day := t / DAY;
    WeekOffsetFacts(day);
    var first := day - WeekOffset(day);
    assert BucketStart(t, Week) == first * DAY;
    assert first * DAY / DAY == first && first * DAY % DAY == 0;
  }

  /** A time lies in its bucket, and its bucket starts where buckets start. */
  lemma {:induction false} InBucket(t: nat, i: Interval)
    ensures BucketStart(t, i) <= t < BucketEnd(BucketStart(t, i), i)
    ensures IsStart(BucketStart(t, i), i)
  {
    hide MonthStart, MonthOf, MonthLength, WeekOffset;
    match i {
      case Hour =>
      case Day =>
      case Week => WeekBounds(t);
      case Month => MonthBounds(t);
    }
  }

  lemma {:induction false} MonthsApart(a: int, b: int)
    requires IsStart(a, Month) && IsStart(b, Month) && a < b
    ensures BucketEnd(a, Month) <= b && a < BucketEnd(a, Month)
  {
    hide MonthLength, MonthFrom;
    var m: nat :| a == MonthStart(m) * DAY;
    var n: nat :| b == MonthStart(n) * DAY;
    assert a / DAY == MonthStart(m);
    MonthOfUnique(MonthStart(m), m);
    if n < m {
      MonthStartGrows(n, m);
    }
    MonthStartGrows(m, n);
  }

  lemma {:induction false} WeeksApart(a: int, b: int)
    requires IsStart(a, Week) && IsStart(b, Week) && a < b
    ensures BucketEnd(a, Week) <= b
  {
    var x, y := a / DAY, b / DAY;
    assert a == x * DAY && b == y * DAY;
    assert x < y && (x + 3) % 7 == 0 && (y + 3) % 7 == 0;
    assert x + 7 <= y;
  }

  /** Different starts are at least one bucket apart, and the next start is where the bucket ends. */
  lemma {:induction false} StartsApart(a: int, b: int, i: Interval)
    requires IsStart(a, i) && IsStart(b, i) && a < b
    ensures BucketEnd(a, i) <= b && a < BucketEnd(a, i)
  {
    match i {
      case Hour => assert a / HOUR < b / HOUR;
      case Day => assert a / DAY < b / DAY;
      case Week => WeeksApart(a, b);
      case Month => MonthsApart(a, b);
    }
  }

  lemma {:induction false} EndIsStart(a: int, i: Interval)
    requires IsStart(a, i)
    ensures IsStart(BucketEnd(a, i), i) && a < BucketEnd(a, i)
  {
    if i.Month? {
      var m: nat :| a == MonthStart(m) * DAY;
      assert a / DAY == MonthStart(m);
      MonthOfUnique(MonthStart(m), m);
      assert BucketEnd(a, i) == MonthStart(m + 1) * DAY;
    }
  }

  lemma {:induction false} StartIsMonotone(t: nat, u: nat, i: Interval)
    requires t <= u
    ensures BucketStart(t, i) <= BucketStart(u, i)
  {
    hide BucketStart, BucketEnd, IsStart;
    InBucket(t, i);
    InBucket(u, i);
    if BucketStart(u, i) < BucketStart(t, i) {
      StartsApart(BucketStart(u, i), BucketStart(t, i), i);
    }
  }

  // ----- grouping

  /** Nineteen columns that add up: the number of blocks first, then samples, counts, gas and fees. */
  const COLUMNS: nat := 19

  type Columns = seq<nat>

  /** The value of a column. */
  function At(columns: Columns, c: nat): nat {
    if c < |columns| then columns[c] else 0
  }

  datatype HourRow = HourRow(start: nat, from: nat, to: nat, columns: Columns)

  datatype Totals = Totals(from: nat, to: nat, columns: Columns)

  datatype Group = Group(start: int, totals: Totals)

  /** A stored hour has at least one block. */
  predicate Stored(rows: seq<HourRow>) {
    forall k | 0 <= k < |rows| :: At(rows[k].columns, 0) > 0
  }

  function Sum(a: Columns, b: Columns): Columns {
    seq(COLUMNS, k requires 0 <= k < COLUMNS => At(a, k) + At(b, k))
  }

  const NOTHING: Columns := []

  /** The first hour gives the first block, every hour the last. */
  function Add(t: Totals, row: HourRow): Totals {
    Totals(if At(t.columns, 0) == 0 then row.from else t.from, row.to, Sum(t.columns, row.columns))
  }

  function TotalsOf(rows: seq<HourRow>): Totals {
    if rows == [] then Totals(0, 0, NOTHING) else Add(TotalsOf(rows[..|rows| - 1]), rows[|rows| - 1])
  }

  /** The bucket of a part's first row. */
  function PartStart(part: seq<HourRow>, i: Interval): int
    requires part != []
  {
    BucketStart(part[0].start, i)
  }

  /** Whether the row continues the last part. */
  predicate Continues(ps: seq<seq<HourRow>>, row: HourRow, i: Interval)
    requires forall k | 0 <= k < |ps| :: ps[k] != []
  {
    ps != [] && PartStart(ps[|ps| - 1], i) == BucketStart(row.start, i)
  }

  function Extend(ps: seq<seq<HourRow>>, row: HourRow, i: Interval): (qs: seq<seq<HourRow>>)
    requires forall k | 0 <= k < |ps| :: ps[k] != []
    ensures forall k | 0 <= k < |qs| :: qs[k] != []
  {
    if Continues(ps, row, i) then ps[..|ps| - 1] + [ps[|ps| - 1] + [row]] else ps + [[row]]
  }

  /** Runs of neighbouring rows in one bucket. */
  function Parts(rows: seq<HourRow>, i: Interval): (ps: seq<seq<HourRow>>)
    ensures forall k | 0 <= k < |ps| :: ps[k] != []
  {
    if rows == [] then [] else Extend(Parts(rows[..|rows| - 1], i), rows[|rows| - 1], i)
  }

  /** Extending changes at most the last part, and leaves every start as it is. */
  lemma {:induction false} ExtendFacts(ps: seq<seq<HourRow>>, row: HourRow, i: Interval)
    requires forall k | 0 <= k < |ps| :: ps[k] != []
    ensures var qs := Extend(ps, row, i);
            && |qs| == (if Continues(ps, row, i) then |ps| else |ps| + 1)
            && (forall k | 0 <= k < |qs| - 1 :: qs[k] == ps[k])
            && qs[|qs| - 1] == (if Continues(ps, row, i) then ps[|ps| - 1] + [row] else [row])
            && (forall k | 0 <= k < |ps| :: PartStart(qs[k], i) == PartStart(ps[k], i))
            && PartStart(qs[|qs| - 1], i) == BucketStart(row.start, i)
  {
    hide BucketStart;
  }

  function GroupOf(part: seq<HourRow>, i: Interval): Group
    requires part != []
  {
    Group(BucketStart(part[0].start, i), TotalsOf(part))
  }

  method AggregateHours(rows: seq<HourRow>, i: Interval) returns (groups: seq<Group>)
    ensures Grouped(groups, Parts(rows, i), i)
  {
    hide BucketStart, Parts, Add, TotalsOf;
    groups := [];
    var n := 0;
    NoParts(rows, i);
    while n < |rows|
      invariant 0 <= n <= |rows| && Grouped(groups, Parts(rows[..n], i), i)
    {
      PartsStep(rows, n, i);
      GroupStep(groups, Parts(rows[..n], i), rows[n], i);
      var start := BucketStart(rows[n].start, i);
      if groups == [] || groups[|groups| - 1].start != start {
        groups := groups + [Group(start, Totals(0, 0, NOTHING))];
      }
      var last := |groups| - 1;
      groups := groups[..last] + [groups[last].(totals := Add(groups[last].totals, rows[n]))];
      n := n + 1;
    }
    assert rows[..|rows|] == rows;
  }

  /** Group by group, the totals are those of the parts. */
  ghost predicate Grouped(groups: seq<Group>, ps: seq<seq<HourRow>>, i: Interval)
    requires forall k | 0 <= k < |ps| :: ps[k] != []
  {
    |groups| == |ps| && forall k | 0 <= k < |groups| :: groups[k] == GroupOf(ps[k], i)
  }

  lemma {:induction false} NoParts(rows: seq<HourRow>, i: Interval)
    ensures Parts(rows[..0], i) == []
  {
  }

  lemma {:induction false} PartsStep(rows: seq<HourRow>, n: nat, i: Interval)
    requires n < |rows|
    ensures Parts(rows[..n + 1], i) == Extend(Parts(rows[..n], i), rows[n], i)
  {
    hide Extend;
    assert rows[..n + 1][..n] == rows[..n];
  }

  lemma {:induction false} GroupStep(groups: seq<Group>, ps: seq<seq<HourRow>>, row: HourRow, i: Interval)
    requires (forall k | 0 <= k < |ps| :: ps[k] != []) && Grouped(groups, ps, i)
    ensures (groups == [] || groups[|groups| - 1].start != BucketStart(row.start, i)) <==> !Continues(ps, row, i)
    ensures var more := if Continues(ps, row, i) then groups else groups + [Group(BucketStart(row.start, i), Totals(0, 0, NOTHING))];
            var last := |more| - 1;
            Grouped(more[..last] + [more[last].(totals := Add(more[last].totals, row))], Extend(ps, row, i), i)
  {
    hide BucketStart, Add, TotalsOf, Extend;
    ExtendFacts(ps, row, i);
    if Continues(ps, row, i) {
      Longer(ps[|ps| - 1], row);
    } else {
      Single(row);
    }
  }

  lemma {:induction false} Single(row: HourRow)
    ensures TotalsOf([row]) == Add(Totals(0, 0, NOTHING), row)
  {
    assert [row][..0] == [];
  }

  lemma {:induction false} Longer(part: seq<HourRow>, row: HourRow)
    ensures TotalsOf(part + [row]) == Add(TotalsOf(part), row)
  {
    assert (part + [row])[..|part|] == part;
  }

  // ----- the parts are a partition

  function Flatten(ps: seq<seq<HourRow>>): seq<HourRow> {
    if ps == [] then [] else Flatten(ps[..|ps| - 1]) + ps[|ps| - 1]
  }

  /** Every row of a part lies in the bucket of the part. */
  ghost predicate Uniform(ps: seq<seq<HourRow>>, i: Interval)
    requires forall k | 0 <= k < |ps| :: ps[k] != []
  {
    forall k, j | 0 <= k < |ps| && 0 <= j < |ps[k]| :: BucketStart(ps[k][j].start, i) == PartStart(ps[k], i)
  }

  lemma {:induction false} ExtendCovers(ps: seq<seq<HourRow>>, row: HourRow, i: Interval)
    requires forall k | 0 <= k < |ps| :: ps[k] != []
    ensures Flatten(Extend(ps, row, i)) == Flatten(ps) + [row]
  {
    hide BucketStart, Continues;
    var qs := Extend(ps, row, i);
    if Continues(ps, row, i) {
      ContinuesLast(ps, row, i);
      assert qs[..|qs| - 1] == ps[..|ps| - 1];
    } else {
      assert qs[..|qs| - 1] == ps;
    }
  }

  lemma {:induction false} ContinuesLast(ps: seq<seq<HourRow>>, row: HourRow, i: Interval)
    requires (forall k | 0 <= k < |ps| :: ps[k] != []) && Continues(ps, row, i)
    ensures ps != []
  {
  }

  lemma {:induction false} ExtendUniform(ps: seq<seq<HourRow>>, row: HourRow, i: Interval)
    requires (forall k | 0 <= k < |ps| :: ps[k] != []) && Uniform(ps, i)
    ensures Uniform(Extend(ps, row, i), i)
  {
    hide BucketStart, Extend;
    ExtendFacts(ps, row, i);
    var qs: seq<seq<HourRow>> := Extend(ps, row, i);
    forall k, j | 0 <= k < |qs| && 0 <= j < |qs[k]| ensures BucketStart(qs[k][j].start, i) == PartStart(qs[k], i) {
      if k < |qs| - 1 {
        assert BucketStart(ps[k][j].start, i) == PartStart(ps[k], i);
      } else if Continues(ps, row, i) && j < |ps[k]| {
        assert qs[k][j] == ps[k][j];
        assert BucketStart(ps[k][j].start, i) == PartStart(ps[k], i);
      }
    }
  }

  /** The parts are the rows, cut where the bucket changes. */
  lemma {:induction false} PartsCover(rows: seq<HourRow>, i: Interval)
    ensures Flatten(Parts(rows, i)) == rows && Uniform(Parts(rows, i), i)
  {
    hide Uniform, Extend, Flatten;
    if rows != [] {
      var n := |rows| - 1;
      PartsCover(rows[..n], i);
      ExtendCovers(Parts(rows[..n], i), rows[n], i);
      ExtendUniform(Parts(rows[..n], i), rows[n], i);
      assert rows == rows[..n] + [rows[n]];
    } else {
      NothingUniform(i);
    }
  }

  lemma {:induction false} NothingUniform(i: Interval)
    ensures Uniform([], i) && Flatten([]) == []
  {
  }

  ghost predicate Chronological(rows: seq<HourRow>) {
    forall a, b | 0 <= a < b < |rows| :: rows[a].start <= rows[b].start
  }

  ghost predicate Increasing(ps: seq<seq<HourRow>>, i: Interval)
    requires forall k | 0 <= k < |ps| :: ps[k] != []
  {
    forall a, b | 0 <= a < b < |ps| :: PartStart(ps[a], i) < PartStart(ps[b], i)
  }

  lemma {:induction false} ExtendIncreases(ps: seq<seq<HourRow>>, row: HourRow, i: Interval)
    requires (forall k | 0 <= k < |ps| :: ps[k] != []) && Increasing(ps, i)
    requires ps != [] ==> PartStart(ps[|ps| - 1], i) <= BucketStart(row.start, i)
    ensures Increasing(Extend(ps, row, i), i)
  {
    hide BucketStart, Extend;
    ExtendFacts(ps, row, i);
    var qs := Extend(ps, row, i);
    forall a, b | 0 <= a < b < |qs| ensures PartStart(qs[a], i) < PartStart(qs[b], i) {
      if b == |ps| && a < |ps| - 1 {
        assert PartStart(ps[a], i) < PartStart(ps[|ps| - 1], i);
      }
    }
  }

  /** The last part holds the last row, and the starts of the parts increase. */
  lemma {:induction false} PartsIncrease(rows: seq<HourRow>, i: Interval)
    requires Chronological(rows)
    ensures rows != [] ==>
              Parts(rows, i) != [] && PartStart(Parts(rows, i)[|Parts(rows, i)| - 1], i) == BucketStart(rows[|rows| - 1].start, i)
    ensures rows == [] ==> Parts(rows, i) == []
    ensures Increasing(Parts(rows, i), i)
  {
    hide BucketStart, Extend, PartStart, Continues;
    if rows != [] {
      var n := |rows| - 1;
      PartsIncrease(rows[..n], i);
      ExtendFacts(Parts(rows[..n], i), rows[n], i);
      if n > 0 {
        assert rows[..n][n - 1] == rows[n - 1];
        StartIsMonotone(rows[n - 1].start, rows[n].start, i);
      }
      ExtendIncreases(Parts(rows[..n], i), rows[n], i);
    }
  }

  /** The sum of one column over rows, and over groups. */
  function ColumnOfRows(rows: seq<HourRow>, c: nat): nat
    requires c < COLUMNS
  {
    if rows == [] then 0 else ColumnOfRows(rows[..|rows| - 1], c) + At(rows[|rows| - 1].columns, c)
  }

  function ColumnOfGroups(groups: seq<Group>, c: nat): nat
    requires c < COLUMNS
  {
    if groups == [] then 0 else ColumnOfGroups(groups[..|groups| - 1], c) + At(groups[|groups| - 1].totals.columns, c)
  }

  lemma {:induction false} TotalsAreSums(rows: seq<HourRow>, c: nat)
    requires c < COLUMNS
    ensures At(TotalsOf(rows).columns, c) == ColumnOfRows(rows, c)
  {
    if rows != [] {
      TotalsAreSums(rows[..|rows| - 1], c);
    }
  }

  lemma {:induction false} ColumnAppend(a: seq<HourRow>, b: seq<HourRow>, c: nat)
    requires c < COLUMNS
    ensures ColumnOfRows(a + b, c) == ColumnOfRows(a, c) + ColumnOfRows(b, c)
  {
    if b == [] {
      assert a + b == a;
    } else {
      assert (a + b)[..|a + b| - 1] == a + b[..|b| - 1];
      ColumnAppend(a, b[..|b| - 1], c);
    }
  }

  lemma {:induction false} GroupsOfParts(ps: seq<seq<HourRow>>, groups: seq<Group>, i: Interval, c: nat)
    requires c < COLUMNS && |groups| == |ps| && forall k | 0 <= k < |ps| :: ps[k] != [] && groups[k] == GroupOf(ps[k], i)
    ensures ColumnOfGroups(groups, c) == ColumnOfRows(Flatten(ps), c)
  {
    hide BucketStart, TotalsOf;
    if ps != [] {
      var n := |ps| - 1;
      GroupsOfParts(ps[..n], groups[..n], i, c);
      TotalsAreSums(ps[n], c);
      ColumnAppend(Flatten(ps[..n]), ps[n], c);
    }
  }

  /** No column gains or loses anything by grouping. */
  lemma {:induction false} TotalsConserved(rows: seq<HourRow>, groups: seq<Group>, i: Interval, c: nat)
    requires c < 19 && Grouped(groups, Parts(rows, i), i)
    ensures ColumnOfGroups(groups, c) == ColumnOfRows(rows, c)
  {
    hide BucketStart, TotalsOf;
    PartsCover(rows, i);
    GroupsOfParts(Parts(rows, i), groups, i, c);
  }

  /** A group names the first block of its first hour and the last block of its last. */
  lemma {:induction false} GroupSpan(part: seq<HourRow>)
    requires part != [] && Stored(part)
    ensures TotalsOf(part).from == part[0].from && TotalsOf(part).to == part[|part| - 1].to && At(TotalsOf(part).columns, 0) > 0
  {
    var n := |part| - 1;
    if n == 0 {
      assert part[..0] == [];
    } else {
      GroupSpan(part[..n]);
    }
  }

  // ----- how many points

  /** The start of the bucket `n` buckets after the first. */
  function StartAt(first: int, i: Interval, n: nat): int {
    if n == 0 then first else BucketEnd(StartAt(first, i, n - 1), i)
  }

  /** The range is covered by at most 500 buckets. */
  ghost predicate Fits(from: nat, until: int, i: Interval) {
    StartAt(BucketStart(from, i), i, MAX_POINTS) >= until
  }

  lemma {:induction false} StartsGrow(first: int, i: Interval, a: nat, b: nat)
    requires IsStart(first, i) && a <= b
    ensures IsStart(StartAt(first, i, b), i) && StartAt(first, i, a) <= StartAt(first, i, b)
    ensures a < b ==> StartAt(first, i, a) < StartAt(first, i, b)
    decreases b
  {
    hide IsStart, BucketEnd;
    if b > 0 {
      if a < b {
        StartsGrow(first, i, a, b - 1);
      } else {
        StartsGrow(first, i, b - 1, b - 1);
      }
      EndIsStart(StartAt(first, i, b - 1), i);
    }
  }

  method FitsInterval(from: nat, until: int, i: Interval) returns (ok: bool)
    ensures ok <==> Fits(from, until, i)
  {
    hide BucketStart, BucketEnd, IsStart;
    var first := BucketStart(from, i);
    InBucket(from, i);
    var cursor, count := first, 0;
    while cursor < until
      invariant 0 <= count <= MAX_POINTS && cursor == StartAt(first, i, count)
      decreases MAX_POINTS - count
    {
      count := count + 1;
      if count > MAX_POINTS {
        return false;
      }
      cursor := BucketEnd(cursor, i);
    }
    StartsGrow(first, i, count, MAX_POINTS);
    ok := true;
  }

  /** A requested interval is taken if it fits; otherwise the finest that fits is chosen. */
  method ChooseInterval(from: nat, until: int, requested: Option<Interval>) returns (r: Option<Interval>)
    ensures r.Some? ==> Fits(from, until, r.value)
    ensures requested.Some? ==> (r.Some? <==> Fits(from, until, requested.value)) && (r.Some? ==> r == requested)
    ensures requested.None? ==>
              && (r.None? <==> !Fits(from, until, Hour) && !Fits(from, until, Day) && !Fits(from, until, Week) && !Fits(from, until, Month))
              && (r == Some(Hour) <==> Fits(from, until, Hour))
              && (r == Some(Day) ==> !Fits(from, until, Hour))
              && (r == Some(Week) ==> !Fits(from, until, Hour) && !Fits(from, until, Day))
              && (r == Some(Month) ==> !Fits(from, until, Hour) && !Fits(from, until, Day) && !Fits(from, until, Week))
  {
    hide Fits;
    if requested.Some? {
      var ok := FitsInterval(from, until, requested.value);
      return if ok then requested else None;
    }
    var hour := FitsInterval(from, until, Hour);
    if hour {
      return Some(Hour);
    }
    var day := FitsInterval(from, until, Day);
    if day {
      return Some(Day);
    }
    var week := FitsInterval(from, until, Week);
    if week {
      return Some(Week);
    }
    var month := FitsInterval(from, until, Month);
    r := if month then Some(Month) else None;
  }

  /** Group `k` starts no earlier than bucket `k` of the range. */
  lemma {:induction false} GroupsAreSparse(rows: seq<HourRow>, from: nat, i: Interval, k: nat)
    requires Chronological(rows) && k < |Parts(rows, i)| && forall a | 0 <= a < |rows| :: BucketStart(from, i) <= rows[a].start
    ensures StartAt(BucketStart(from, i), i, k) <= PartStart(Parts(rows, i)[k], i)
  {
    hide BucketStart, BucketEnd, IsStart;
    var ps: seq<seq<HourRow>> := Parts(rows, i);
    InBucket(from, i);
    StartsGrow(BucketStart(from, i), i, k, k);
    PartRow(rows, i, k);
    InBucket(ps[k][0].start, i);
    if k == 0 {
      if PartStart(ps[0], i) < BucketStart(from, i) {
        StartsApart(PartStart(ps[0], i), BucketStart(from, i), i);
      }
    } else {
      GroupsAreSparse(rows, from, i, k - 1);
      PartsIncrease(rows, i);
      assert PartStart(ps[k - 1], i) < PartStart(ps[k], i);
      PartRow(rows, i, k - 1);
      InBucket(ps[k - 1][0].start, i);
      StartsGrow(BucketStart(from, i), i, k - 1, k - 1);
      NextStart(StartAt(BucketStart(from, i), i, k - 1), PartStart(ps[k - 1], i), PartStart(ps[k], i), i);
    }
  }

  lemma {:induction false} NextStart(a: int, b: int, c: int, i: Interval)
    requires IsStart(a, i) && IsStart(b, i) && IsStart(c, i) && a <= b < c
    ensures BucketEnd(a, i) <= c
  {
    StartsApart(a, c, i);
  }

  /** The first row of a part is a row. */
  lemma {:induction false} PartRow(rows: seq<HourRow>, i: Interval, k: nat)
    requires k < |Parts(rows, i)|
    ensures Parts(rows, i)[k][0] in rows
  {
    hide BucketStart;
    var n := |rows| - 1;
    if k < |Parts(rows[..n], i)| {
      PartRow(rows[..n], i, k);
      assert forall x | x in rows[..n] :: x in rows;
    }
  }

  /** Hours inside a range that the interval fits give at most 500 groups. */
  lemma {:induction false} AtMost500(rows: seq<HourRow>, from: nat, until: int, i: Interval)
    requires Chronological(rows) && Fits(from, until, i)
    requires forall a | 0 <= a < |rows| :: BucketStart(from, i) <= rows[a].start < until
    ensures |Parts(rows, i)| <= MAX_POINTS
  {
    hide BucketStart, BucketEnd, IsStart, Parts;
    if |Parts(rows, i)| > MAX_POINTS {
      var part := Parts(rows, i)[MAX_POINTS];
      GroupsAreSparse(rows, from, i, MAX_POINTS);
      PartRow(rows, i, MAX_POINTS);
      InBucket(part[0].start, i);
    }
  }

  // ----- points

  datatype Point = Point(start: int, end: int, value: string, partial: bool, from: nat, to: nat)

  /** The point of a group whose metric has a value; a ratio without a denominator has none. */
  function PointOf(g: Group, value: Totals -> Option<string>, i: Interval, now: int): Option<Point> {
    match value(g.totals)
    case None => None
    case Some(v) => Some(Point(g.start, BucketEnd(g.start, i), v, now < BucketEnd(g.start, i), g.totals.from, g.totals.to))
  }

  function Points(groups: seq<Group>, value: Totals -> Option<string>, i: Interval, now: int): seq<Point> {
    if groups == [] then []
    else Points(groups[..|groups| - 1], value, i, now)
         + match PointOf(groups[|groups| - 1], value, i, now) { case None => [] case Some(p) => [p] }
  }

  ghost predicate Ascending(points: seq<Point>) {
    forall a, b | 0 <= a < b < |points| :: points[a].start < points[b].start
  }

  /** Points keep the order of the groups, and there are no more of them. */
  lemma {:induction false} PointsFollowGroups(groups: seq<Group>, value: Totals -> Option<string>, i: Interval, now: int)
    requires forall a, b | 0 <= a < b < |groups| :: groups[a].start < groups[b].start
    ensures Ascending(Points(groups, value, i, now)) && |Points(groups, value, i, now)| <= |groups|
    ensures forall k | 0 <= k < |Points(groups, value, i, now)| ::
              groups != [] && Points(groups, value, i, now)[k].start <= groups[|groups| - 1].start
  {
    hide BucketEnd;
    if groups != [] {
      PointsFollowGroups(groups[..|groups| - 1], value, i, now);
    }
  }

  /** The point tells of this run of hours: its bucket, whether that is over, its blocks and its metric. */
  predicate Tells(p: Point, part: seq<HourRow>, value: Totals -> Option<string>, i: Interval, now: int)
    requires part != []
  {
    && p.start == BucketStart(part[0].start, i) && p.end == BucketEnd(p.start, i) && (p.partial <==> now < p.end)
    && value(TotalsOf(part)) == Some(p.value)
    && (Stored(part) ==> p.from == part[0].from && p.to == part[|part| - 1].to)
  }

  ghost predicate ToldBy(p: Point, ps: seq<seq<HourRow>>, value: Totals -> Option<string>, i: Interval, now: int)
    requires forall k | 0 <= k < |ps| :: ps[k] != []
  {
    exists k | 0 <= k < |ps| :: Tells(p, ps[k], value, i, now)
  }

  lemma {:induction false} PointTells(part: seq<HourRow>, value: Totals -> Option<string>, i: Interval, now: int)
    requires part != [] && PointOf(GroupOf(part, i), value, i, now).Some?
    ensures Tells(PointOf(GroupOf(part, i), value, i, now).value, part, value, i, now)
  {
    hide BucketStart, BucketEnd, TotalsOf;
    if Stored(part) {
      GroupSpan(part);
    }
  }

  /** Every point tells of a run, and every run whose metric has a value has its point. */
  lemma {:induction false} PointsTell(groups: seq<Group>, ps: seq<seq<HourRow>>, value: Totals -> Option<string>, i: Interval, now: int)
    requires (forall k | 0 <= k < |ps| :: ps[k] != []) && Grouped(groups, ps, i)
    ensures forall k | 0 <= k < |Points(groups, value, i, now)| :: ToldBy(Points(groups, value, i, now)[k], ps, value, i, now)
    ensures forall k | 0 <= k < |ps| && value(TotalsOf(ps[k])).Some? ::
              exists p | p in Points(groups, value, i, now) :: Tells(p, ps[k], value, i, now)
  {
    hide Tells, TotalsOf, BucketStart, BucketEnd;
    if groups != [] {
      var n := |groups| - 1;
      PointsTell(groups[..n], ps[..n], value, i, now);
      var init, all := Points(groups[..n], value, i, now), Points(groups, value, i, now);
      var last := PointOf(groups[n], value, i, now);
      assert groups[n] == GroupOf(ps[n], i);
      if last.Some? {
        PointTells(ps[n], value, i, now);
        assert all == init + [last.value] && last.value in all;
        assert Tells(last.value, ps[n], value, i, now);
      }
      forall k | 0 <= k < |all| ensures ToldBy(all[k], ps, value, i, now) {
        if k < |init| {
          assert ToldBy(init[k], ps[..n], value, i, now);
          var m :| 0 <= m < n && Tells(init[k], ps[..n][m], value, i, now);
          assert Tells(all[k], ps[m], value, i, now);
        }
      }
      forall k | 0 <= k < |ps| && value(TotalsOf(ps[k])).Some? ensures exists p | p in all :: Tells(p, ps[k], value, i, now) {
        if k < n {
          assert ps[..n][k] == ps[k];
          var p :| p in init && Tells(p, ps[k], value, i, now);
          assert p in all;
        }
      }
    }
  }

  /** The chart: grouped hours, then the points of the groups with a value. */
  method Chart(rows: seq<HourRow>, from: nat, until: int, i: Interval, value: Totals -> Option<string>, now: int) returns (points: seq<Point>)
    requires Chronological(rows) && Fits(from, until, i)
    requires forall a | 0 <= a < |rows| :: BucketStart(from, i) <= rows[a].start < until
    ensures |points| <= 500 && Ascending(points)
    ensures exists groups :: Grouped(groups, Parts(rows, i), i) && points == Points(groups, value, i, now)
    ensures forall k | 0 <= k < |points| :: ToldBy(points[k], Parts(rows, i), value, i, now)
    ensures forall k | 0 <= k < |Parts(rows, i)| && value(TotalsOf(Parts(rows, i)[k])).Some? ::
              exists p | p in points :: Tells(p, Parts(rows, i)[k], value, i, now)
  {
    hide Tells, ToldBy, BucketStart, BucketEnd, Parts, Points, TotalsOf;
    var groups := AggregateHours(rows, i);
    points := [];
    var n := 0;
    assert points == Points(groups[..0], value, i, now) by { NoPoints(groups, value, i, now); }
    while n < |groups|
      invariant 0 <= n <= |groups| && points == Points(groups[..n], value, i, now)
    {
      PointsStep(groups, n, value, i, now);
      var p := PointOf(groups[n], value, i, now);
      if p.Some? {
        points := points + [p.value];
      }
      n := n + 1;
    }
    assert groups[..|groups|] == groups;
    AtMost500(rows, from, until, i);
    PartsIncrease(rows, i);
    forall a, b | 0 <= a < b < |groups| ensures groups[a].start < groups[b].start {
      assert groups[a] == GroupOf(Parts(rows, i)[a], i) && groups[b] == GroupOf(Parts(rows, i)[b], i);
      assert PartStart(Parts(rows, i)[a], i) < PartStart(Parts(rows, i)[b], i);
    }
    PointsFollowGroups(groups, value, i, now);
    PointsTell(groups, Parts(rows, i), value, i, now);
  }

  lemma {:induction false} NoPoints(groups: seq<Group>, value: Totals -> Option<string>, i: Interval, now: int)
    ensures Points(groups[..0], value, i, now) == []
  {
  }

  lemma {:induction false} PointsStep(groups: seq<Group>, n: nat, value: Totals -> Option<string>, i: Interval, now: int)
    requires n < |groups|
    ensures Points(groups[..n + 1], value, i, now) ==
            Points(groups[..n], value, i, now) + match PointOf(groups[n], value, i, now) { case None => [] case Some(p) => [p] }
  {
    hide PointOf;
    assert groups[..n + 1][..n] == groups[..n];
  }
}
