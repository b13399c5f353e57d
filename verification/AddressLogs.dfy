/**
 Pages of an address's logs, newest first. A page is cut by its row limit or by the bytes
 of its rows; the last row shown is the next cursor.
 */
module AddressLogs {
  import opened Prelude
  import opened Lexicographic
  import opened Keyset

  /**
   `size` is what the row's detail adds to the byte count. The detail is `readable` when its query
   succeeds, and `sound` when the stored log can be projected and dated.
   */
  datatype LogRow = LogRow(block: nat, tx: nat, index: nat, size: nat, readable: bool, sound: bool)

  function KeyOf(row: LogRow): Word {
    [row.block, row.tx, row.index]
  }

  datatype Request = Request(limit: nat, fromBlock: Option<nat>, toBlock: Option<nat>)

  const DEFAULT_LIMIT: nat := 25

  function LimitOf(r: Request): nat {
    if r.limit == 0 then DEFAULT_LIMIT else r.limit
  }

  /** The block range: the request's, cut at the snapshot. */
  function Bounds(r: Request, snapshot: nat): (nat, nat) {
    (if r.fromBlock.None? then 0 else r.fromBlock.value,
     if r.toBlock.Some? && r.toBlock.value < snapshot then r.toBlock.value else snapshot)
  }

  function InRange(rows: seq<LogRow>, from: nat, until: nat): seq<LogRow> {
    if rows == [] then []
    else (if from <= rows[0].block <= until then [rows[0]] else []) + InRange(rows[1..], from, until)
  }

  lemma {:induction false} InRangeFacts(rows: seq<LogRow>, from: nat, until: nat)
    requires Descending(rows, KeyOf)
    ensures Descending(InRange(rows, from, until), KeyOf)
    ensures forall row :: row in InRange(rows, from, until) <==> row in rows && from <= row.block <= until
  {
    if rows != [] {
      TailElements(rows, KeyOf);
      InRangeFacts(rows[1..], from, until);
      var tail := InRange(rows[1..], from, until);
      forall i | 0 <= i < |tail| ensures Less(KeyOf(tail[i]), KeyOf(rows[0])) {
        assert tail[i] in rows[1..];
        var k :| 0 <= k < |rows[1..]| && rows[1..][k] == tail[i];
        assert rows[k + 1] == tail[i];
      }
      assert rows == [rows[0]] + rows[1..];
    }
  }

  /** The first cursor: just above every log of the snapshot block. */
  function FirstCursor(snapshot: nat): Word {
    [snapshot, MAX_INT64, MAX_INT64]
  }

  lemma {:induction false} LessThree(a: nat, b: nat, c: nat, x: nat, y: nat, z: nat)
    ensures Less([a, b, c], [x, y, z]) <==> a < x || (a == x && (b < y || (b == y && c < z)))
  {
    assert [a, b, c][1..] == [b, c] && [x, y, z][1..] == [y, z];
    assert [b, c][1..] == [c] && [y, z][1..] == [z];
    assert [c][1..] == [] && [z][1..] == [];
    assert Less([c], [z]) <==> c < z;
    assert Less([b, c], [y, z]) <==> b < y || (b == y && c < z);
  }

  /** The first page starts at the newest log in range, if no log has the largest possible position. */
  lemma {:induction false} FirstCursorCoversAll(rows: seq<LogRow>, from: nat, until: nat, snapshot: nat)
    requires Descending(rows, KeyOf) && until <= snapshot
    requires forall row | row in rows :: row.tx <= MAX_INT64 && row.index <= MAX_INT64
    ensures Below(InRange(rows, from, until), KeyOf, Some(FirstCursor(snapshot))) == InRange(rows, from, until) <==>
            forall row | row in InRange(rows, from, until) :: KeyOf(row) != FirstCursor(snapshot)
  {
    hide Less, InRange, KeyOf, FirstCursor;
    InRangeFacts(rows, from, until);
    var all := InRange(rows, from, until);
    var cursor := Some(FirstCursor(snapshot));
    forall row | row in all ensures After(KeyOf(row), cursor) <==> KeyOf(row) != FirstCursor(snapshot) {
      FirstIsAbove(row, snapshot);
    }
    if forall row | row in all :: KeyOf(row) != FirstCursor(snapshot) {
      BelowAll(all, KeyOf, cursor);
    } else {
      var row :| row in all && KeyOf(row) == FirstCursor(snapshot);
      var k := BelowIsSuffix(all, KeyOf, cursor);
      var i :| 0 <= i < |all| && all[i] == row;
      assert !After(KeyOf(all[i]), cursor);
    }
  }

  lemma {:induction false} FirstIsAbove(row: LogRow, snapshot: nat)
    requires row.block <= snapshot && row.tx <= MAX_INT64 && row.index <= MAX_INT64
    ensures Less(KeyOf(row), FirstCursor(snapshot)) <==> KeyOf(row) != FirstCursor(snapshot)
  {
    hide Less;
    LessThree(row.block, row.tx, row.index, snapshot, MAX_INT64, MAX_INT64);
    if KeyOf(row) != FirstCursor(snapshot) {
      SameThree(row, snapshot);
    }
  }

  lemma {:induction false} SameThree(row: LogRow, snapshot: nat)
    ensures row.block == snapshot && row.tx == MAX_INT64 && row.index == MAX_INT64 <==> KeyOf(row) == FirstCursor(snapshot)
  {
    assert KeyOf(row)[0] == row.block && KeyOf(row)[1] == row.tx && KeyOf(row)[2] == row.index;
    assert FirstCursor(snapshot)[0] == snapshot && FirstCursor(snapshot)[1] == MAX_INT64 && FirstCursor(snapshot)[2] == MAX_INT64;
  }

  // ----- one page

  /** Number of leading rows whose sizes add up to at most the budget. */
  function Fit(rows: seq<LogRow>, budget: int): (n: nat)
    ensures n <= |rows|
  {
    if rows == [] || rows[0].size > budget then 0 else 1 + Fit(rows[1..], budget - rows[0].size)
  }

  datatype Page = Page(items: seq<LogRow>, next: Option<Word>)

  datatype Result = Fine(page: Page) | TooLarge | Broken

  /** How many of the rows below the cursor fit on a page. */
  function Shown(rest: seq<LogRow>, limit: nat, budget: int): (n: nat)
    ensures n <= |Take(rest, limit)| && n <= |rest|
  {
    Fit(Take(rest, limit), budget)
  }

  /** Filling a page with `n` of the rows meets a bad one; the row after them is still read. */
  predicate Breaks(rows: seq<LogRow>, n: nat)
    requires n <= |rows|
  {
    || (exists i | 0 <= i < n :: !rows[i].readable || !rows[i].sound)
    || (n < |rows| && !rows[n].readable)
  }

  /** Takes rows while the budget lasts; the cursor follows the last row taken. */
  method FillPage(rows: seq<LogRow>, more: bool, budget: nat) returns (r: Result)
    ensures var n := Fit(rows, budget);
            && (r.Broken? <==> Breaks(rows, n))
            && (r.TooLarge? <==> !Breaks(rows, n) && rows != [] && n == 0)
            && (r.Fine? ==> r.page.items == rows[..n])
            && (r.Fine? ==> r.page.next == if n > 0 && (n < |rows| || more) then Some(KeyOf(rows[n - 1])) else None)
  {
    hide KeyOf;
    var items: seq<LogRow>, next: Option<Word>, bytes, i := [], None, 0, 0;
    while i < |rows|
      invariant 0 <= i <= |rows| && items == rows[..i] && 0 <= bytes <= budget
      invariant Fit(rows, budget) == i + Fit(rows[i..], budget - bytes)
      invariant forall k | 0 <= k < i :: rows[k].readable && rows[k].sound
      invariant next == if i > 0 then Some(KeyOf(rows[i - 1])) else None
    {
      assert rows[i..][1..] == rows[i + 1..];
      if !rows[i].readable {
        return Broken;
      }
      if bytes + rows[i].size > budget {
        return if items == [] then TooLarge else Fine(Page(items, next));
      }
      bytes := bytes + rows[i].size;
      if !rows[i].sound {
        return Broken;
      }
      items, next, i := items + [rows[i]], Some(KeyOf(rows[i])), i + 1;
    }
    r := Fine(Page(items, if more then next else None));
  }

  /**
   The page: as many rows as limit and budget allow, and a cursor exactly when rows are left.
   It fails exactly when it meets a bad row, or rows are left and the first alone exceeds the budget.
   */
  method ReadPage(all: seq<LogRow>, cursor: Option<Word>, limit: nat, budget: nat) returns (r: Result)
    requires limit > 0
    ensures var rest := Below(all, KeyOf, cursor);
            var n := Shown(rest, limit, budget);
            && (r.Broken? <==> Breaks(Take(rest, limit), n))
            && (r.TooLarge? <==> !Breaks(Take(rest, limit), n) && rest != [] && n == 0)
            && (r.Fine? ==> r.page.items == rest[..n])
            && (r.Fine? && n == |rest| ==> r.page.next.None?)
            && (r.Fine? && n < |rest| ==> n > 0 && r.page.next == Some(KeyOf(rest[n - 1])))
  {
    hide Below, KeyOf, Fit, Breaks;
    var rows := Take(Below(all, KeyOf, cursor), limit + 1);
    var more := |rows| > limit;
    if more {
      rows := rows[..limit];
    }
    ghost var rest := Below(all, KeyOf, cursor);
    assert rows == Take(rest, limit);
    assert rows == rest[..|rows|];
    r := FillPage(rows, more, budget);
  }

  // ----- the walk

  /** Follows the cursors to the end. */
  function WalkPages(all: seq<LogRow>, cursor: Option<Word>, limit: nat, budget: nat): Option<seq<LogRow>>
    requires Descending(all, KeyOf) && limit > 0
    decreases |Below(all, KeyOf, cursor)|
  {
    var rest := Below(all, KeyOf, cursor);
    var n := Shown(rest, limit, budget);
    if rest == [] then Some([])
    else if n == 0 || Breaks(Take(rest, limit), n) then None
    else if n == |rest| then Some(rest)
    else
      NextPage(all, KeyOf, cursor, n);
      match WalkPages(all, Some(KeyOf(rest[n - 1])), limit, budget)
      case None => None
      case Some(more) => Some(rest[..n] + more)
  }

  /** The row can be shown. */
  predicate Good(row: LogRow, budget: nat) {
    row.readable && row.sound && row.size <= budget
  }

  predicate AllGood(rows: seq<LogRow>, budget: nat) {
    forall i | 0 <= i < |rows| :: Good(rows[i], budget)
  }

  lemma {:induction false} AllGoodSplit(rows: seq<LogRow>, n: nat, budget: nat)
    requires n <= |rows|
    ensures AllGood(rows, budget) <==> AllGood(rows[..n], budget) && AllGood(rows[n..], budget)
  {
    assert rows == rows[..n] + rows[n..];
    assert forall i | n <= i < |rows| :: rows[i] == rows[n..][i - n];
  }

  /** A page fails only at rows that cannot be shown, and shows only rows that can. */
  lemma {:induction false} ShownFirst(rest: seq<LogRow>, limit: nat, budget: nat)
    requires limit > 0 && rest != []
    ensures var n := Shown(rest, limit, budget);
            if n == 0 || Breaks(Take(rest, limit), n) then !AllGood(rest, budget) else AllGood(rest[..n], budget)
  {
    var rows, n := Take(rest, limit), Shown(rest, limit, budget);
    assert forall i | 0 <= i < |rows| :: rows[i] == rest[i];
    FitEach(rows, budget, budget);
    if n == 0 {
      assert !Good(rest[0], budget);
    } else if Breaks(rows, n) {
      var i :| 0 <= i <= n && i < |rows| && (!rows[i].readable || !rows[i].sound);
      assert !Good(rest[i], budget);
    }
  }

  lemma {:induction false} FitEach(rows: seq<LogRow>, budget: int, total: int)
    requires budget <= total
    ensures forall i | 0 <= i < Fit(rows, budget) :: rows[i].size <= total
  {
    if rows != [] && rows[0].size <= budget {
      FitEach(rows[1..], budget - rows[0].size, total);
    }
  }

  /**
   The pages together show every row below the cursor once, in order, exactly when each of them
   can be shown; otherwise the walk ends in an error.
   */
  lemma {:induction false} WalkShowsAll(all: seq<LogRow>, cursor: Option<Word>, limit: nat, budget: nat)
    requires Descending(all, KeyOf) && limit > 0
    ensures WalkPages(all, cursor, limit, budget).Some? <==>
            AllGood(Below(all, KeyOf, cursor), budget)
    ensures WalkPages(all, cursor, limit, budget).Some? ==> WalkPages(all, cursor, limit, budget).value == Below(all, KeyOf, cursor)
    decreases |Below(all, KeyOf, cursor)|
  {
    hide Below, Shown, Descending, KeyOf, Breaks, AllGood;
    var rest := Below(all, KeyOf, cursor);
    var n := Shown(rest, limit, budget);
    if rest == [] {
      NothingIsGood(budget);
    } else {
      ShownFirst(rest, limit, budget);
      AllGoodSplit(rest, n, budget);
      assert rest == rest[..n] + rest[n..];
      if n == |rest| {
        assert rest[n..] == [];
        NothingIsGood(budget);
      } else if n > 0 && !Breaks(Take(rest, limit), n) {
        NextPage(all, KeyOf, cursor, n);
        WalkShowsAll(all, Some(KeyOf(rest[n - 1])), limit, budget);
      }
    }
  }

  lemma {:induction false} NothingIsGood(budget: nat)
    ensures AllGood([], budget)
  {
  }

  /**
   From the first page of a request on, the pages show exactly the logs in its range, newest
   first, if each of them can be shown; otherwise the walk ends in an error.
   */
  lemma {:induction false} RequestShowsRange(rows: seq<LogRow>, r: Request, snapshot: nat, budget: nat)
    requires Descending(rows, KeyOf)
    requires forall row | row in rows :: row.tx <= MAX_INT64 && row.index <= MAX_INT64 && KeyOf(row) != FirstCursor(snapshot)
    ensures var all := InRange(rows, Bounds(r, snapshot).0, Bounds(r, snapshot).1);
            && Descending(all, KeyOf)
            && (forall row :: row in all <==>
                  && row in rows && row.block <= snapshot
                  && (r.fromBlock.Some? ==> row.block >= r.fromBlock.value) && (r.toBlock.Some? ==> row.block <= r.toBlock.value))
            && WalkPages(all, Some(FirstCursor(snapshot)), LimitOf(r), budget) ==
               if AllGood(all, budget) then Some(all) else None
  {
    hide Descending, KeyOf, InRange, Below, FirstCursor, WalkPages;
    var from, until := Bounds(r, snapshot).0, Bounds(r, snapshot).1;
    InRangeFacts(rows, from, until);
    FirstCursorCoversAll(rows, from, until, snapshot);
    WalkShowsAll(InRange(rows, from, until), Some(FirstCursor(snapshot)), LimitOf(r), budget);
  }

  /** Newest first: by block, then by transaction, then by log. */
  lemma {:induction false} NewestFirst(a: LogRow, b: LogRow)
    ensures Less(KeyOf(a), KeyOf(b)) <==>
            a.block < b.block || (a.block == b.block && (a.tx < b.tx || (a.tx == b.tx && a.index < b.index)))
  {
    LessThree(a.block, a.tx, a.index, b.block, b.tx, b.index);
  }

  function SizeSum(rows: seq<LogRow>): nat {
    if rows == [] then 0 else SizeSum(rows[..|rows| - 1]) + rows[|rows| - 1].size
  }

  lemma {:induction false} SizeSumFirst(rows: seq<LogRow>)
    requires rows != []
    ensures SizeSum(rows) == rows[0].size + SizeSum(rows[1..])
  {
    if |rows| > 1 {
      SizeSumFirst(rows[..|rows| - 1]);
      assert rows[..|rows| - 1][1..] == rows[1..][..|rows| - 2];
    } else {
      assert rows[..0] == [] && rows[1..] == [];
    }
  }

  /** A page is as long as it can be: its rows fit the budget together, and one row more would not. */
  lemma {:induction false} FitIsLongest(rows: seq<LogRow>, budget: nat)
    ensures SizeSum(rows[..Fit(rows, budget)]) <= budget
    ensures Fit(rows, budget) < |rows| ==> SizeSum(rows[..Fit(rows, budget) + 1]) > budget
    ensures LimitOf(Request(0, None, None)) == 25
  {
    var n := Fit(rows, budget);
    if rows == [] || rows[0].size > budget {
      if rows != [] {
        assert rows[..1][..0] == [] && rows[..1][0] == rows[0];
      }
    } else {
      FitIsLongest(rows[1..], budget - rows[0].size);
      SizeSumFirst(rows[..n]);
      assert rows[..n][1..] == rows[1..][..n - 1];
      if n < |rows| {
        SizeSumFirst(rows[..n + 1]);
        assert rows[..n + 1][1..] == rows[1..][..n];
      }
    }
  }
}
