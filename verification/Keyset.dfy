/**
 Paging by key: a page takes some of the rows strictly below a cursor, in descending order,
 and its last row is the next cursor.
 */
module Keyset {
  import opened Prelude
  import opened Lexicographic

  ghost predicate Descending<T>(rows: seq<T>, key: T -> Word) {
    forall i, j | 0 <= i < j < |rows| :: Less(key(rows[j]), key(rows[i]))
  }

  /** The row comes after the cursor; without a cursor every row does. */
  predicate After(k: Word, cursor: Option<Word>) {
    cursor.None? || Less(k, cursor.value)
  }

  function Below<T>(rows: seq<T>, key: T -> Word, cursor: Option<Word>): seq<T> {
    if rows == [] then []
    else if After(key(rows[0]), cursor) then [rows[0]] + Below(rows[1..], key, cursor)
    else Below(rows[1..], key, cursor)
  }

  function Take<T>(rows: seq<T>, n: nat): seq<T> {
    if |rows| <= n then rows else rows[..n]
  }

  lemma {:induction false} BelowAll<T>(rows: seq<T>, key: T -> Word, cursor: Option<Word>)
    requires forall i | 0 <= i < |rows| :: After(key(rows[i]), cursor)
    ensures Below(rows, key, cursor) == rows
  {
    if rows != [] {
      BelowAll(rows[1..], key, cursor);
    }
  }

  lemma {:induction false} BelowNone<T>(rows: seq<T>, key: T -> Word, cursor: Option<Word>)
    requires forall i | 0 <= i < |rows| :: !After(key(rows[i]), cursor)
    ensures Below(rows, key, cursor) == []
  {
    if rows != [] {
      BelowNone(rows[1..], key, cursor);
    }
  }

  lemma {:induction false} BelowAppend<T>(a: seq<T>, b: seq<T>, key: T -> Word, cursor: Option<Word>)
    ensures Below(a + b, key, cursor) == Below(a, key, cursor) + Below(b, key, cursor)
  {
    if a == [] {
      assert a + b == b;
    } else {
      assert (a + b)[1..] == a[1..] + b;
      BelowAppend(a[1..], b, key, cursor);
    }
  }

  /** In a descending list the rows below a cursor are a suffix. */
  lemma {:induction false} BelowIsSuffix<T>(rows: seq<T>, key: T -> Word, cursor: Option<Word>) returns (k: nat)
    requires Descending(rows, key)
    ensures k <= |rows| && Below(rows, key, cursor) == rows[k..]
    ensures forall i | 0 <= i < k :: !After(key(rows[i]), cursor)
    ensures forall i | k <= i < |rows| :: After(key(rows[i]), cursor)
  {
    if rows == [] {
      k := 0;
    } else if After(key(rows[0]), cursor) {
      k := 0;
      forall i | 0 <= i < |rows| ensures After(key(rows[i]), cursor) {
        if i > 0 && cursor.Some? {
          LessTransitive(key(rows[i]), key(rows[0]), cursor.value);
        }
      }
      BelowAll(rows, key, cursor);
    } else {
      var tail := rows[1..];
      assert forall i, j | 0 <= i < j < |tail| :: tail[i] == rows[i + 1] && tail[j] == rows[j + 1];
      var m := BelowIsSuffix(tail, key, cursor);
      k := m + 1;
      assert forall i | 0 < i < |rows| :: rows[i] == tail[i - 1];
    }
  }

  /** After a page of `n` rows, the rows below its last row are the rest. */
  lemma {:induction false} NextPage<T>(rows: seq<T>, key: T -> Word, cursor: Option<Word>, n: nat)
    requires Descending(rows, key) && 0 < n <= |Below(rows, key, cursor)|
    ensures Below(rows, key, Some(key(Below(rows, key, cursor)[n - 1]))) == Below(rows, key, cursor)[n..]
  {
    var k := BelowIsSuffix(rows, key, cursor);
    var last := rows[k + n - 1];
    var next := Some(key(last));
    assert Below(rows, key, cursor)[n - 1] == last;
    assert rows == rows[..k + n] + rows[k + n..];
    forall i | 0 <= i < k + n ensures !After(key(rows[i]), next) {
      if i == k + n - 1 {
        LessIrreflexive(key(last));
      } else {
        assert Less(key(last), key(rows[i]));
        if Less(key(rows[i]), key(last)) {
          LessTransitive(key(last), key(rows[i]), key(last));
          LessIrreflexive(key(last));
        }
      }
    }
    BelowNone(rows[..k + n], key, next);
    forall i | k + n <= i < |rows| ensures After(key(rows[i]), next) {
      assert Less(key(rows[i]), key(last));
    }
    BelowAll(rows[k + n..], key, next);
    BelowAppend(rows[..k + n], rows[k + n..], key, next);
    assert rows[k..][n..] == rows[k + n..];
  }

  /**
   Following pages. Each page holds between one and all of the rows below the cursor, how
   many is up to `sizes`; the walk ends when nothing is left or `sizes` is used up.
   */
  function Walk<T>(rows: seq<T>, key: T -> Word, cursor: Option<Word>, sizes: seq<nat>): seq<T>
    decreases |sizes|
  {
    var rest := Below(rows, key, cursor);
    if rest == [] || sizes == [] then []
    else var n := if sizes[0] == 0 then 1 else if sizes[0] < |rest| then sizes[0] else |rest|;
         rest[..n] + Walk(rows, key, Some(key(rest[n - 1])), sizes[1..])
  }

  /** The pages together are the rows below the first cursor, in order, without gap or repetition. */
  lemma {:induction false} WalkIsAll<T>(rows: seq<T>, key: T -> Word, cursor: Option<Word>, sizes: seq<nat>)
    requires Descending(rows, key)
    ensures Walk(rows, key, cursor, sizes) <= Below(rows, key, cursor)
    ensures |sizes| >= |Below(rows, key, cursor)| ==> Walk(rows, key, cursor, sizes) == Below(rows, key, cursor)
    decreases |sizes|
  {
    hide Below, Descending;
    var rest := Below(rows, key, cursor);
    if rest != [] && sizes != [] {
      var n := if sizes[0] == 0 then 1 else if sizes[0] < |rest| then sizes[0] else |rest|;
      NextPage(rows, key, cursor, n);
      WalkIsAll(rows, key, Some(key(rest[n - 1])), sizes[1..]);
      assert rest == rest[..n] + rest[n..];
    }
  }

  lemma {:induction false} HeadIsMaximal<T>(a: seq<T>, b: seq<T>, key: T -> Word)
    requires Descending(a, key) && Descending(b, key) && Elements(a) == Elements(b) && a != [] && b != []
    ensures a[0] == b[0]
  {
    assert a[0] in Elements(b) && b[0] in Elements(a);
    var i :| 0 <= i < |b| && b[i] == a[0];
    var j :| 0 <= j < |a| && a[j] == b[0];
    if i != 0 {
      LessIrreflexive(key(a[0]));
      assert Less(key(a[0]), key(b[0]));
      LessTransitive(key(a[0]), key(b[0]), key(a[0]));
    }
  }

  lemma {:induction false} TailElements<T>(a: seq<T>, key: T -> Word)
    requires Descending(a, key) && a != []
    ensures Elements(a[1..]) == Elements(a) - {a[0]} && Descending(a[1..], key)
  {
    LessIrreflexive(key(a[0]));
    assert a[0] !in a[1..];
    assert forall x | x in a && x != a[0] :: x in a[1..] by {
      forall x | x in a && x != a[0] ensures x in a[1..] {
        var i :| 0 <= i < |a| && a[i] == x;
        assert a[1..][i - 1] == x;
      }
    }
  }

  lemma {:induction false} EmptyElements<T>(a: seq<T>)
    ensures Elements(a) == {} <==> a == []
  {
    if a != [] {
      assert a[0] in Elements(a);
    }
  }

  lemma {:induction false} ElementsAppend<T>(a: seq<T>, x: T)
    ensures Elements(a + [x]) == Elements(a) + {x}
  {
  }

  /** A descending list is determined by its elements. */
  lemma {:induction false} DescendingIsUnique<T>(a: seq<T>, b: seq<T>, key: T -> Word)
    requires Descending(a, key) && Descending(b, key) && Elements(a) == Elements(b)
    ensures a == b
    decreases |a|
  {
    EmptyElements(a);
    EmptyElements(b);
    if a != [] {
      HeadIsMaximal(a, b, key);
      TailElements(a, key);
      TailElements(b, key);
      DescendingIsUnique(a[1..], b[1..], key);
      assert a == [a[0]] + a[1..] && b == [b[0]] + b[1..];
    }
  }

  // ----- sorting

  function Insert<T>(rows: seq<T>, x: T, key: T -> Word): seq<T> {
    if rows == [] || Less(key(rows[0]), key(x)) then [x] + rows else [rows[0]] + Insert(rows[1..], x, key)
  }

  function SortDescending<T>(rows: seq<T>, key: T -> Word): seq<T> {
    if rows == [] then [] else Insert(SortDescending(rows[1..], key), rows[0], key)
  }

  ghost predicate DistinctKeys<T>(rows: seq<T>, key: T -> Word) {
    forall i, j | 0 <= i < j < |rows| :: key(rows[i]) != key(rows[j])
  }

  lemma {:induction false} InsertSorts<T>(rows: seq<T>, x: T, key: T -> Word)
    requires Descending(rows, key) && forall i | 0 <= i < |rows| :: key(rows[i]) != key(x)
    ensures Descending(Insert(rows, x, key), key)
    ensures Elements(Insert(rows, x, key)) == Elements(rows) + {x}
  {
    if rows == [] {
    } else if Less(key(rows[0]), key(x)) {
      var r := [x] + rows;
      forall i, j | 0 <= i < j < |r| ensures Less(key(r[j]), key(r[i])) {
        if i == 0 && j > 1 {
          LessTransitive(key(rows[j - 1]), key(rows[0]), key(x));
        }
      }
    } else {
      TailElements(rows, key);
      InsertSorts(rows[1..], x, key);
      LessTotal(key(rows[0]), key(x));
      var tail := Insert(rows[1..], x, key);
      var r := [rows[0]] + tail;
      forall j | 0 < j < |r| ensures Less(key(r[j]), key(rows[0])) {
        assert tail[j - 1] in Elements(rows[1..]) + {x};
        if tail[j - 1] != x {
          assert tail[j - 1] in rows[1..];
          var k :| 0 <= k < |rows[1..]| && rows[1..][k] == tail[j - 1];
          assert rows[k + 1] == tail[j - 1];
        }
      }
      assert forall i, j | 0 < i < j < |r| :: Less(key(r[j]), key(r[i])) by {
        assert forall i | 0 < i < |r| :: r[i] == tail[i - 1];
      }
    }
  }

  lemma {:induction false} SortSorts<T>(rows: seq<T>, key: T -> Word)
    requires DistinctKeys(rows, key)
    ensures Descending(SortDescending(rows, key), key) && Elements(SortDescending(rows, key)) == Elements(rows)
  {
    if rows != [] {
      var tail := SortDescending(rows[1..], key);
      assert DistinctKeys(rows[1..], key) by {
        assert forall i | 0 <= i < |rows[1..]| :: rows[1..][i] == rows[i + 1];
      }
      SortSorts(rows[1..], key);
      forall i | 0 <= i < |tail| ensures key(tail[i]) != key(rows[0]) {
        assert tail[i] in Elements(rows[1..]);
        var k :| 0 <= k < |rows[1..]| && rows[1..][k] == tail[i];
        assert rows[k + 1] == tail[i];
      }
      InsertSorts(tail, rows[0], key);
      assert Elements(rows) == Elements(rows[1..]) + {rows[0]} by {
        assert rows == [rows[0]] + rows[1..];
      }
    } else {
      assert Elements(rows) == {};
    }
  }
}
