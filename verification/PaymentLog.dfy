/**
 The audit log of a payment: which rows are read back as its history. The reader is one
 pass with three running values; the accepted logs are described without them.
 */
module PaymentLog {
  import opened Prelude

  datatype State = Reserved | Verified | Settling | Settled | Failed | Expired

  /** A state column: NULL, one of the six texts, or any other text. */
  datatype Column = Null | Known(state: State) | Garbled

  datatype Actor = Runtime | Operator | Stranger

  /** A row of the event table. `paymentId` and `at` are absent when they do not decode. */
  datatype Row = Row(
    paymentId: Option<nat>, id: int, from: Column, to: Column, code: string,
    actor: Actor, hash: Bytes, at: Option<int>)

  /** What the reader knows of the payment. */
  datatype Subject = Subject(id: nat, state: State, createdAt: int, updatedAt: int)

  predicate Terminal(s: State) {
    s.Settled? || s.Failed? || s.Expired?
  }

  predicate CodeLetter(c: char) {
    'a' <= c <= 'z'
  }

  /** A letter, then at most 127 letters, digits and underscores. */
  predicate ValidCode(s: string) {
    && 1 <= |s| <= 128 && CodeLetter(s[0])
    && forall i | 0 <= i < |s| :: CodeLetter(s[i]) || '0' <= s[i] <= '9' || s[i] == '_'
  }

  predicate OperatorCode(s: string) {
    "operator_" <= s
  }

  predicate ValidHash(b: Bytes) {
    |b| == 32 && exists i | 0 <= i < |b| :: b[i] != 0
  }

  // ----- accepted logs

  /** The arrows between states; a repeated `Verified` or `Settling` records a note. */
  predicate Edge(a: State, b: State) {
    match a
    case Reserved => b.Verified? || b.Failed? || b.Expired?
    case Verified => b.Verified? || b.Settling? || b.Failed? || b.Expired?
    case Settling => b.Settling? || b.Settled? || b.Failed?
    case _ => false
  }

  /** The columns of a row that need no other row and no clock. */
  predicate Plain(row: Row, id: nat) {
    && row.paymentId == Some(id) && row.id > 0
    && row.to.Known? && !row.from.Garbled?
    && ValidCode(row.code) && !row.actor.Stranger?
    && row.at.Some?
    && (row.hash == [] || ValidHash(row.hash))
    && (row.actor.Operator? <==> OperatorCode(row.code))
  }

  /** A settled event names its transaction; only settling and settled events may. */
  predicate HashPlaced(row: Row) {
    && (row.to == Known(Settled) ==> row.hash != [])
    && (row.hash != [] ==> row.to == Known(Settled) || row.to == Known(Settling))
  }

  ghost predicate Ordered(rows: seq<Row>)
    requires forall i | 0 <= i < |rows| :: rows[i].at.Some?
  {
    forall i, j | 0 <= i < j < |rows| :: rows[i].at.value <= rows[j].at.value
  }

  ghost predicate Within(rows: seq<Row>, from: int, until: int)
    requires forall i | 0 <= i < |rows| :: rows[i].at.Some?
  {
    forall i | 0 <= i < |rows| :: from <= rows[i].at.value <= until
  }

  ghost predicate Numbered(rows: seq<Row>) {
    forall i, j | 0 <= i < j < |rows| :: rows[i].id < rows[j].id
  }

  /** The rows are a walk along the arrows that starts with the reservation. */
  ghost predicate Walk(rows: seq<Row>)
    requires forall i | 0 <= i < |rows| :: rows[i].to.Known?
  {
    && (|rows| > 0 ==> rows[0].from == Null && rows[0].to == Known(Reserved))
    && forall i | 0 < i < |rows| :: rows[i].from == rows[i - 1].to && Edge(rows[i - 1].to.state, rows[i].to.state)
  }

  ghost predicate AllPlain(rows: seq<Row>, id: nat) {
    forall i | 0 <= i < |rows| :: Plain(rows[i], id)
  }

  ghost predicate AcceptedLog(p: Subject, rows: seq<Row>) {
    && rows != []
    && AllPlain(rows, p.id)
    && (forall i | 0 <= i < |rows| :: HashPlaced(rows[i]))
    && Numbered(rows) && Ordered(rows) && Within(rows, p.createdAt, p.updatedAt)
    && Walk(rows) && rows[|rows| - 1].to.state == p.state
  }

  // ----- the reader

  datatype Event = Event(id: int, from: Option<State>, to: State, code: string, operator: bool, hash: Option<Bytes>, at: int)

  function EventOf(row: Row, id: nat): Event
    requires Plain(row, id)
  {
    Event(row.id, if row.from.Known? then Some(row.from.state) else None, row.to.state, row.code,
          row.actor.Operator?, if row.hash == [] then None else Some(row.hash), row.at.value)
  }

  /** The event says what the row says, column by column. */
  predicate Records(e: Event, row: Row) {
    && e.id == row.id && row.to == Known(e.to) && e.code == row.code && row.at == Some(e.at)
    && row.from == (if e.from.Some? then Known(e.from.value) else Null)
    && row.actor == (if e.operator then Operator else Runtime)
    && row.hash == (if e.hash.Some? then e.hash.value else [])
  }

  lemma {:induction false} EventRecords(row: Row, id: nat)
    requires Plain(row, id)
    ensures Records(EventOf(row, id), row)
  {
    hide ValidCode, ValidHash, OperatorCode;
  }

  predicate ValidEventTransition(current: Option<State>, from: Option<State>, to: State) {
    match current
    case None => from.None? && to.Reserved?
    case Some(s) => from == Some(s) && Edge(s, to)
  }

  /** What the pass has established about the rows before `i`. */
  ghost predicate Seen(p: Subject, rows: seq<Row>, i: nat, current: Option<State>, lastId: int, lastTime: int)
    requires i <= |rows|
  {
    && AllPlain(rows[..i], p.id)
    && (forall j | 0 <= j < i :: HashPlaced(rows[j]))
    && Numbered(rows[..i]) && Ordered(rows[..i]) && Within(rows[..i], p.createdAt, p.updatedAt) && Walk(rows[..i])
    && (i == 0 ==> current == None)
    && (i > 0 ==> current == Some(rows[i - 1].to.state) && lastId == rows[i - 1].id && rows[i - 1].at == Some(lastTime))
  }

  /** The checks of row `i` that look at the running values. */
  predicate Follows(p: Subject, row: Row, i: nat, current: Option<State>, lastId: int, lastTime: int) {
    && Plain(row, p.id) && HashPlaced(row)
    && (i > 0 ==> row.id > lastId && lastTime <= row.at.value)
    && p.createdAt <= row.at.value <= p.updatedAt
    && ValidEventTransition(current, if row.from.Known? then Some(row.from.state) else None, row.to.state)
  }

  lemma {:induction false} FollowsExtends(p: Subject, rows: seq<Row>, i: nat, current: Option<State>, lastId: int, lastTime: int)
    requires i < |rows| && Seen(p, rows, i, current, lastId, lastTime)
    requires Follows(p, rows[i], i, current, lastId, lastTime)
    ensures Seen(p, rows, i + 1, Some(rows[i].to.state), rows[i].id, rows[i].at.value)
  {
    hide Plain, HashPlaced, Edge, Walk, Numbered, Ordered, Within;
    var before, after := rows[..i], rows[..i + 1];
    assert after == before + [rows[i]];
    PlainFacts(rows[i], p.id);
    AllPlainFacts(before, p.id);
    assert AllPlain(after, p.id);
    AllPlainFacts(after, p.id);
    if i > 0 {
      assert before[i - 1] == rows[i - 1];
    }
    ExtendNumbers(before, rows[i]);
    ExtendOrder(before, rows[i], p.createdAt, p.updatedAt);
    ExtendWalk(before, rows[i]);
  }

  lemma {:induction false} AllPlainFacts(rows: seq<Row>, id: nat)
    requires AllPlain(rows, id)
    ensures forall j | 0 <= j < |rows| :: rows[j].to.Known? && rows[j].at.Some? && !rows[j].from.Garbled? && rows[j].id > 0
  {
    hide Plain;
    forall j | 0 <= j < |rows| ensures rows[j].to.Known? && rows[j].at.Some? && !rows[j].from.Garbled? && rows[j].id > 0 {
      assert Plain(rows[j], id);
      PlainFacts(rows[j], id);
    }
  }

  lemma {:induction false} ExtendNumbers(rows: seq<Row>, row: Row)
    requires Numbered(rows) && (rows != [] ==> rows[|rows| - 1].id < row.id)
    ensures Numbered(rows + [row])
  {
  }

  lemma {:induction false} ExtendOrder(rows: seq<Row>, row: Row, from: int, until: int)
    requires (forall j | 0 <= j < |rows| :: rows[j].at.Some?) && row.at.Some?
    requires Ordered(rows) && Within(rows, from, until) && from <= row.at.value <= until
    requires rows != [] ==> rows[|rows| - 1].at.value <= row.at.value
    ensures Ordered(rows + [row]) && Within(rows + [row], from, until)
  {
  }

  lemma {:induction false} ExtendWalk(rows: seq<Row>, row: Row)
    requires (forall j | 0 <= j < |rows| :: rows[j].to.Known?) && row.to.Known? && Walk(rows)
    requires rows == [] ==> row.from == Null && row.to == Known(Reserved)
    requires rows != [] ==> row.from == rows[|rows| - 1].to && Edge(rows[|rows| - 1].to.state, row.to.state)
    ensures Walk(rows + [row])
  {
    hide Edge;
  }

  lemma {:induction false} PlainFacts(row: Row, id: nat)
    requires Plain(row, id)
    ensures row.to.Known? && row.at.Some? && !row.from.Garbled? && row.id > 0
  {
  }

  /** A row of an accepted log passes the checks of the pass. */
  lemma {:induction false} AcceptedFollows(p: Subject, rows: seq<Row>, i: nat, current: Option<State>, lastId: int, lastTime: int)
    requires i < |rows| && Seen(p, rows, i, current, lastId, lastTime) && AcceptedLog(p, rows)
    ensures Follows(p, rows[i], i, current, lastId, lastTime)
  {
    hide Plain, HashPlaced, Edge;
    assert Plain(rows[i], p.id) && HashPlaced(rows[i]);
    PlainFacts(rows[i], p.id);
    if i > 0 {
      assert Plain(rows[i - 1], p.id);
      PlainFacts(rows[i - 1], p.id);
      assert rows[i - 1].id < rows[i].id && rows[i - 1].at.value <= rows[i].at.value;
      assert rows[i].from == rows[i - 1].to && Edge(rows[i - 1].to.state, rows[i].to.state);
    }
  }

  lemma {:induction false} SeenAll(p: Subject, rows: seq<Row>, current: Option<State>, lastId: int, lastTime: int)
    requires rows != [] && Seen(p, rows, |rows|, current, lastId, lastTime)
    ensures AcceptedLog(p, rows) <==> current == Some(p.state)
  {
    hide Plain, HashPlaced, Edge, Within, Ordered, Numbered, Walk;
    assert rows[..|rows|] == rows;
    assert Plain(rows[|rows| - 1], p.id);
    PlainFacts(rows[|rows| - 1], p.id);
  }

  /** The reader accepts exactly the accepted logs and returns their events. */
  method EventsFromRows(p: Subject, rows: seq<Row>) returns (r: Option<seq<Event>>)
    ensures r.Some? <==> AcceptedLog(p, rows)
    ensures r.Some? ==> |r.value| == |rows| && forall i | 0 <= i < |rows| :: Records(r.value[i], rows[i])
  {
    hide Records, Seen, Follows, AcceptedLog, Plain;
    if rows == [] {
      EmptyIsRejected(p);
      return None;
    }
    var result: seq<Event> := [];
    var current: Option<State>, lastId, lastTime, i := None, 0, 0, 0;
    assert Seen(p, rows, 0, None, 0, 0) by { NothingSeen(p, rows); }
    while i < |rows|
      invariant 0 <= i <= |rows| && Seen(p, rows, i, current, lastId, lastTime)
      invariant |result| == i
      invariant forall j | 0 <= j < i :: Records(result[j], rows[j])
    {
      var row := rows[i];
      if !Follows(p, row, i, current, lastId, lastTime) {
        if AcceptedLog(p, rows) {
          AcceptedFollows(p, rows, i, current, lastId, lastTime);
        }
        return None;
      }
      FollowsExtends(p, rows, i, current, lastId, lastTime);
      FollowsFacts(p, row, i, current, lastId, lastTime);
      EventRecords(row, p.id);
      result := result + [EventOf(row, p.id)];
      current, lastId, lastTime, i := Some(row.to.state), row.id, row.at.value, i + 1;
    }
    SeenAll(p, rows, current, lastId, lastTime);
    r := if current == Some(p.state) then Some(result) else None;
  }

  lemma {:induction false} EmptyIsRejected(p: Subject)
    ensures !AcceptedLog(p, [])
  {
  }

  lemma {:induction false} NothingSeen(p: Subject, rows: seq<Row>)
    ensures Seen(p, rows, 0, None, 0, 0)
  {
  }

  lemma {:induction false} FollowsFacts(p: Subject, row: Row, i: nat, current: Option<State>, lastId: int, lastTime: int)
    requires Follows(p, row, i, current, lastId, lastTime)
    ensures Plain(row, p.id) && row.to.Known? && row.at.Some?
  {
  }

  // ----- what an accepted log says

  function Rank(s: State): nat {
    match s
    case Reserved => 0
    case Verified => 1
    case Settling => 2
    case _ => 3
  }

  /** States only move forward, and nothing follows a terminal state. */
  lemma {:induction false} Forward(p: Subject, rows: seq<Row>, i: nat, j: nat)
    requires AcceptedLog(p, rows) && i < j < |rows|
    ensures rows[i].to.Known? && rows[j].to.Known? && Rank(rows[i].to.state) <= Rank(rows[j].to.state)
    ensures !Terminal(rows[i].to.state)
    decreases j - i
  {
    assert Plain(rows[i], p.id) && Plain(rows[j], p.id) && Plain(rows[i + 1], p.id);
    assert rows[i + 1].from == rows[i].to && Edge(rows[i].to.state, rows[i + 1].to.state);
    if i + 1 < j {
      Forward(p, rows, i + 1, j);
    }
  }

  lemma {:induction false} NothingFollowsTerminal(p: Subject, rows: seq<Row>, i: nat)
    requires AcceptedLog(p, rows) && i < |rows| && rows[i].to.Known? && Terminal(rows[i].to.state)
    ensures i == |rows| - 1 && p.state == rows[i].to.state
  {
    if i < |rows| - 1 {
      Forward(p, rows, i, |rows| - 1);
    }
  }

  /** The event that entered the state of row `i`. */
  lemma {:induction false} EntryOf(p: Subject, rows: seq<Row>, i: nat, s: State) returns (k: nat)
    requires AcceptedLog(p, rows) && i < |rows| && rows[i].to == Known(s)
    requires s.Verified? || s.Settling?
    ensures 0 < k <= i && rows[k].to == Known(s) && rows[k].from != Known(s)
    ensures rows[k].from == rows[k - 1].to && rows[k - 1].to.Known? && Edge(rows[k - 1].to.state, s)
  {
    assert Plain(rows[i], p.id);
    assert i > 0;
    assert rows[i].from == rows[i - 1].to && Plain(rows[i - 1], p.id) && Edge(rows[i - 1].to.state, rows[i].to.state);
    if rows[i - 1].to == Known(s) {
      k := EntryOf(p, rows, i - 1, s);
    } else {
      k := i;
    }
  }

  /** A settled log passed through verified and then settling, and ends with its transaction. */
  lemma {:induction false} SettledWasVerified(p: Subject, rows: seq<Row>) returns (v: nat, s: nat)
    requires AcceptedLog(p, rows) && p.state.Settled?
    ensures 0 < v < s < |rows| - 1
    ensures rows[v].from == Known(Reserved) && rows[v].to == Known(Verified)
    ensures rows[s].from == Known(Verified) && rows[s].to == Known(Settling)
    ensures ValidHash(rows[|rows| - 1].hash)
  {
    var last := |rows| - 1;
    assert Plain(rows[last], p.id) && HashPlaced(rows[last]);
    assert last > 0;
    assert rows[last].from == rows[last - 1].to && Edge(rows[last - 1].to.state, rows[last].to.state);
    assert Plain(rows[last - 1], p.id);
    s := EntryOf(p, rows, last - 1, Settling);
    v := EntryOf(p, rows, s - 1, Verified);
  }

  /** An expired log has no settling event and no transaction anywhere. */
  lemma {:induction false} ExpiredNeverSettled(p: Subject, rows: seq<Row>, i: nat)
    requires AcceptedLog(p, rows) && p.state.Expired? && i < |rows|
    ensures rows[i].to != Known(Settling) && rows[i].hash == []
  {
    assert Plain(rows[i], p.id) && HashPlaced(rows[i]);
    var last := |rows| - 1;
    assert last > 0;
    assert Plain(rows[last - 1], p.id);
    assert rows[last].from == rows[last - 1].to && Edge(rows[last - 1].to.state, rows[last].to.state);
    if i < last - 1 {
      Forward(p, rows, i, last - 1);
    }
  }

  /** What acceptance demands of every event and of every two, in numbers. */
  lemma {:induction false} AcceptedMeans(p: Subject, rows: seq<Row>, i: nat, j: nat)
    requires AcceptedLog(p, rows) && i < |rows| && j < |rows|
    ensures rows[i].paymentId == Some(p.id) && rows[i].id >= 1 && rows[i].at.Some? && rows[j].at.Some?
    ensures p.createdAt <= rows[i].at.value <= p.updatedAt
    ensures i < j ==> rows[i].id < rows[j].id && rows[i].at.value <= rows[j].at.value
    ensures rows[i].actor.Runtime? || rows[i].actor.Operator?
    ensures rows[i].actor.Operator? <==> |rows[i].code| >= 9 && rows[i].code[..9] == "operator_"
    ensures 1 <= |rows[i].code| <= 128 && 'a' <= rows[i].code[0] <= 'z'
    ensures forall c | c in rows[i].code :: 'a' <= c <= 'z' || '0' <= c <= '9' || c == '_'
    ensures rows[i].hash != [] ==> |rows[i].hash| == 32 && (rows[i].to == Known(Settling) || rows[i].to == Known(Settled))
    ensures rows[i].hash != [] ==> exists b | b in rows[i].hash :: b != 0
    ensures rows[0].from == Null && rows[0].to == Known(Reserved) && rows[|rows| - 1].to == Known(p.state)
  {
    assert Plain(rows[i], p.id) && Plain(rows[j], p.id) && HashPlaced(rows[i]) && Plain(rows[|rows| - 1], p.id);
    if rows[i].hash != [] {
      var k :| 0 <= k < |rows[i].hash| && rows[i].hash[k] != 0;
      assert rows[i].hash[k] in rows[i].hash;
    }
  }
}
