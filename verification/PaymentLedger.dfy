/**
 The ledger's own transitions of a payment, each of which appends one event, and what the
 reader of PaymentLog makes of the logs they produce.
 */
module PaymentLedger {
  import opened Prelude
  import opened PaymentLog

  datatype Payment = Payment(
    id: nat, owner: nat, state: State, createdAt: int, updatedAt: int, expiresAt: int,
    payer: Option<nat>, user: Option<nat>,
    verifiedAt: Option<int>, handlerAt: Option<int>, settlingAt: Option<int>,
    settledAt: Option<int>, failedAt: Option<int>, expiredAt: Option<int>,
    hash: Option<Bytes>, failure: Option<string>)

  /** Two minutes, in nanoseconds: the age at which an unmarked settlement counts as crashed. */
  const CRASH_DELAY: nat := 120_000_000_000

  /** The codes the ledger writes by itself. */
  datatype CodeName =
    | ReservedCode
    | VerifiedCode
    | StartedCode
    | SettlingCode
    | UnknownCode
    | PendingCode
    | SettledCode
    | ExpiredCode
    | OperatorSettled
    | OperatorStaleSettled
    | OperatorFailed
    | OperatorStaleFailed

  function Text(c: CodeName): string {
    match c
    case ReservedCode => "payment_reserved"
    case VerifiedCode => "payment_verified"
    case StartedCode => "handler_started"
    case SettlingCode => "settlement_started"
    case UnknownCode => "settlement_unknown"
    case PendingCode => "settlement_pending"
    case SettledCode => "payment_settled"
    case ExpiredCode => "reservation_expired"
    case OperatorSettled => "operator_reconciled_settled"
    case OperatorStaleSettled => "operator_reconciled_stale_settling_settled"
    case OperatorFailed => "operator_reconciled_failed"
    case OperatorStaleFailed => "operator_reconciled_stale_settling_failed"
  }

  predicate ByOperator(c: CodeName) {
    c.OperatorSettled? || c.OperatorStaleSettled? || c.OperatorFailed? || c.OperatorStaleFailed?
  }

  lemma {:induction false} OperatorSettledText()
    ensures ValidCode("operator_reconciled_settled") && OperatorCode("operator_reconciled_settled")
  {
  }

  lemma {:induction false} OperatorStaleSettledText()
    ensures ValidCode("operator_reconciled_stale_settling_settled") && OperatorCode("operator_reconciled_stale_settling_settled")
  {
  }

  lemma {:induction false} OperatorFailedText()
    ensures ValidCode("operator_reconciled_failed") && OperatorCode("operator_reconciled_failed")
  {
  }

  lemma {:induction false} OperatorStaleFailedText()
    ensures ValidCode("operator_reconciled_stale_settling_failed") && OperatorCode("operator_reconciled_stale_settling_failed")
  {
  }

  lemma {:induction false} OpeningTexts()
    ensures ValidCode("payment_reserved") && !OperatorCode("payment_reserved")
    ensures ValidCode("payment_verified") && !OperatorCode("payment_verified")
  {
    assert "payment_reserved"[0] == 'p' && "payment_verified"[0] == 'p';
  }

  lemma {:induction false} StartedText()
    ensures ValidCode("handler_started") && !OperatorCode("handler_started")
  {
    assert "handler_started"[0] == 'h';
  }

  lemma {:induction false} SettlementTexts()
    ensures ValidCode("settlement_started") && !OperatorCode("settlement_started")
    ensures ValidCode("settlement_unknown") && !OperatorCode("settlement_unknown")
  {
    assert "settlement_started"[0] == 's' && "settlement_unknown"[0] == 's';
  }

  lemma {:induction false} PendingText()
    ensures ValidCode("settlement_pending") && !OperatorCode("settlement_pending")
  {
    assert "settlement_pending"[0] == 's';
  }

  lemma {:induction false} ClosingTexts()
    ensures ValidCode("payment_settled") && !OperatorCode("payment_settled")
    ensures ValidCode("reservation_expired") && !OperatorCode("reservation_expired")
  {
    assert "payment_settled"[0] == 'p' && "reservation_expired"[0] == 'r';
  }

  lemma {:induction false} CodeFacts(c: CodeName)
    ensures ValidCode(Text(c)) && (OperatorCode(Text(c)) <==> ByOperator(c))
  {
    hide ValidCode, OperatorCode;
    OperatorSettledText();
    OperatorStaleSettledText();
    OperatorFailedText();
    OperatorStaleFailedText();
    OpeningTexts();
    StartedText();
    SettlementTexts();
    PendingText();
    ClosingTexts();
  }

  lemma {:induction false} FailureCodesDiffer()
    ensures Text(OperatorFailed) != Text(UnknownCode) && Text(OperatorFailed) != Text(ExpiredCode)
    ensures Text(UnknownCode) != Text(PendingCode) && Text(UnknownCode) != Text(ExpiredCode)
  {
    assert Text(OperatorFailed)[0] == 'o' && Text(UnknownCode)[0] == 's' && Text(ExpiredCode)[0] == 'r';
    assert Text(UnknownCode)[11] == 'u' && Text(PendingCode)[11] == 'p';
  }

  datatype Op =
    | MarkVerified(payer: nat, user: Option<nat>)
    | StartHandler
    | MarkSettling
    | BeginTopup
    | MarkUnknown
    | MarkPending(hash: Bytes)
    | MarkSettled(hash: Bytes)
    | Fail(code: string)
    | ReconcileSettled(hash: Bytes)
    | ReconcileFailed
    | Expire

  /** The codes with which the runtime may fail a payment. */
  predicate RuntimeCode(code: string) {
    ValidCode(code) && code != Text(UnknownCode) && code != Text(ExpiredCode) && !OperatorCode(code)
  }

  /** A settlement an operator may decide: marked, or unmarked for too long. */
  predicate Reconcilable(p: Payment, t: int) {
    && p.state.Settling? && p.settlingAt.Some? && t >= p.settlingAt.value && t >= p.updatedAt
    && (p.failure == Some(Text(UnknownCode)) || p.failure == Some(Text(PendingCode)) ||
        (p.failure.None? && p.settlingAt.value <= t - CRASH_DELAY))
  }

  predicate Guard(p: Payment, op: Op, t: int) {
    && t >= p.createdAt
    && match op {
         case MarkVerified(_, _) => p.state.Reserved? && p.expiresAt > t
         case StartHandler => p.state.Verified? && p.handlerAt.None? && p.expiresAt > t
         case MarkSettling => p.state.Verified? && p.handlerAt.Some? && p.expiresAt > t
         case BeginTopup => p.state.Verified? && p.handlerAt.None? && p.expiresAt > t
         case MarkUnknown => p.state.Settling? && p.failure.None?
         case MarkPending(h) => ValidHash(h) && p.state.Settling? && p.failure.None? && p.hash.None?
         case MarkSettled(h) => ValidHash(h) && p.state.Settling? && p.failure.None?
         case Fail(code) =>
           RuntimeCode(code) && (p.state.Reserved? || p.state.Verified? || (p.state.Settling? && p.failure.None?))
         case ReconcileSettled(h) => ValidHash(h) && Reconcilable(p, t) && (p.hash.None? || p.hash == Some(h))
         case ReconcileFailed => Reconcilable(p, t)
         case Expire => (p.state.Reserved? || p.state.Verified?) && p.expiresAt <= t
       }
  }

  function After(p: Payment, op: Op, t: int): Payment {
    var q := p.(updatedAt := t);
    match op
    case MarkVerified(payer, user) =>
      q.(state := Verified, payer := Some(payer), user := if p.user.Some? then p.user else user, verifiedAt := Some(t))
    case StartHandler => q.(handlerAt := Some(t))
    case MarkSettling => q.(state := Settling, settlingAt := Some(t))
    case BeginTopup => q.(state := Settling, handlerAt := Some(t), settlingAt := Some(t))
    case MarkUnknown => q.(failure := Some(Text(UnknownCode)))
    case MarkPending(h) => q.(failure := Some(Text(PendingCode)), hash := Some(h))
    case MarkSettled(h) => q.(state := Settled, hash := Some(h), failure := None, settledAt := Some(t))
    case Fail(code) => q.(state := Failed, failure := Some(code), failedAt := Some(t))
    case ReconcileSettled(h) =>
      q.(state := Settled, hash := if p.hash.Some? then p.hash else Some(h), failure := None, settledAt := Some(t))
    case ReconcileFailed => q.(state := Failed, failure := Some(Text(OperatorFailed)), failedAt := Some(t))
    case Expire => q.(state := Expired, failure := Some(Text(ExpiredCode)), expiredAt := Some(t))
  }

  /** The prior state as the failing statement reconstructs it from the timestamps. */
  function PriorState(p: Payment): State {
    if p.settlingAt.Some? then Settling else if p.verifiedAt.Some? then Verified else Reserved
  }

  /** The code of the event; a runtime failure carries its own. */
  function EventCode(p: Payment, op: Op): string {
    match op
    case MarkVerified(_, _) => Text(VerifiedCode)
    case StartHandler => Text(StartedCode)
    case MarkSettling => Text(SettlingCode)
    case BeginTopup => Text(SettlingCode)
    case MarkUnknown => Text(UnknownCode)
    case MarkPending(_) => Text(PendingCode)
    case MarkSettled(_) => Text(SettledCode)
    case Fail(code) => code
    case ReconcileSettled(_) => Text(if p.failure.None? then OperatorStaleSettled else OperatorSettled)
    case ReconcileFailed => Text(if p.failure.None? then OperatorStaleFailed else OperatorFailed)
    case Expire => Text(ExpiredCode)
  }

  function EventHash(p: Payment, op: Op): Bytes {
    match op
    case MarkPending(h) => h
    case MarkSettled(h) => h
    case ReconcileSettled(h) => if p.hash.Some? then p.hash.value else h
    case ReconcileFailed => if p.hash.Some? then p.hash.value else []
    case _ => []
  }

  function EventFrom(p: Payment, op: Op): State {
    match op
    case MarkVerified(_, _) => Reserved
    case StartHandler => Verified
    case MarkSettling => Verified
    case BeginTopup => Verified
    case Fail(_) => PriorState(p)
    case Expire => PriorState(p)
    case _ => Settling
  }

  function EventTo(op: Op): State {
    match op
    case MarkVerified(_, _) => Verified
    case StartHandler => Verified
    case MarkSettling => Settling
    case BeginTopup => Settling
    case MarkUnknown => Settling
    case MarkPending(_) => Settling
    case MarkSettled(_) => Settled
    case Fail(_) => Failed
    case ReconcileSettled(_) => Settled
    case ReconcileFailed => Failed
    case Expire => Expired
  }

  function EventRow(p: Payment, op: Op, t: int, id: int): Row {
    Row(Some(p.id), id, Known(EventFrom(p, op)), Known(EventTo(op)), EventCode(p, op),
        if op.ReconcileSettled? || op.ReconcileFailed? then Operator else Runtime, EventHash(p, op), Some(t))
  }

  // ----- the facts the reader demands of a payment

  /** Which fields are present in which state. */
  predicate Presence(p: Payment) {
    && p.payer.Some? == p.verifiedAt.Some? && (p.user.Some? ==> p.payer.Some?)
    && (p.handlerAt.Some? ==> p.verifiedAt.Some?) && (p.settlingAt.Some? ==> p.handlerAt.Some?)
    && match p.state {
         case Reserved =>
           && p.payer.None? && p.settledAt.None? && p.failedAt.None? && p.expiredAt.None?
           && p.hash.None? && p.failure.None?
         case Verified =>
           && p.payer.Some? && p.settlingAt.None? && p.settledAt.None? && p.failedAt.None? && p.expiredAt.None?
           && p.hash.None? && p.failure.None?
         case Settling =>
           && p.settlingAt.Some? && p.settledAt.None? && p.failedAt.None? && p.expiredAt.None?
           && ((p.failure.None? && p.hash.None?) || (p.failure == Some(Text(UnknownCode)) && p.hash.None?) ||
               (p.failure == Some(Text(PendingCode)) && p.hash.Some?))
         case Settled =>
           && p.settlingAt.Some? && p.settledAt.Some? && p.failedAt.None? && p.expiredAt.None?
           && p.hash.Some? && p.failure.None?
         case Failed =>
           && p.settledAt.None? && p.failedAt.Some? && p.expiredAt.None?
           && p.failure.Some? && p.failure.value != Text(UnknownCode) && p.failure.value != Text(ExpiredCode)
         case Expired =>
           && p.settlingAt.None? && p.settledAt.None? && p.failedAt.None? && p.expiredAt.Some?
           && p.hash.None? && p.failure == Some(Text(ExpiredCode))
       }
  }

  predicate InSpan(x: Option<int>, p: Payment) {
    x.Some? ==> p.createdAt <= x.value <= p.updatedAt
  }

  function Later(x: Option<int>, base: int): int {
    if x.None? then base else x.value
  }

  /** Timestamps lie in the payment's span and in the order of its life. */
  predicate InOrder(p: Payment) {
    && InSpan(p.verifiedAt, p) && InSpan(p.handlerAt, p) && InSpan(p.settlingAt, p)
    && InSpan(p.settledAt, p) && InSpan(p.failedAt, p) && InSpan(p.expiredAt, p)
    && var a := Later(p.verifiedAt, p.createdAt);
       var b := Later(p.handlerAt, a);
       var c := Later(p.settlingAt, b);
       p.createdAt <= a <= b <= c && c <= Later(p.settledAt, c) && c <= Later(p.failedAt, c) && c <= Later(p.expiredAt, c)
  }

  predicate ValidPaymentStateFacts(p: Payment) {
    Presence(p) && InOrder(p)
  }

  // ----- histories

  /** A payment with its events. */
  datatype Ledgered = Ledgered(p: Payment, rows: seq<Row>)

  datatype Entry = Entry(op: Op, at: int, eventId: int)

  function Reserve(id: nat, owner: nat, createdAt: int, expiresAt: int, eventId: int): Ledgered {
    Ledgered(
      Payment(id, owner, Reserved, createdAt, createdAt, expiresAt, None, None, None, None, None, None, None, None, None, None),
      [Row(Some(id), eventId, Null, Known(Reserved), Text(ReservedCode), Runtime, [], Some(createdAt))])
  }

  /** One ledger call; event ids come from an increasing sequence. */
  function Step(l: Ledgered, e: Entry): Option<Ledgered>
    requires l.rows != []
  {
    if Guard(l.p, e.op, e.at) && e.eventId > l.rows[|l.rows| - 1].id
    then Some(Ledgered(After(l.p, e.op, e.at), l.rows + [EventRow(l.p, e.op, e.at, e.eventId)]))
    else None
  }

  function Replay(l: Ledgered, entries: seq<Entry>): Option<Ledgered>
    requires l.rows != []
    decreases |entries|
  {
    if entries == [] then Some(l)
    else match Step(l, entries[0])
         case None => None
         case Some(m) => Replay(m, entries[1..])
  }

  function SubjectOf(p: Payment): Subject {
    Subject(p.id, p.state, p.createdAt, p.updatedAt)
  }

  /** An operator failed a settlement that was pending on a transaction. */
  predicate FailedWhilePending(p: Payment) {
    p.state.Failed? && p.hash.Some?
  }

  ghost predicate Inv(l: Ledgered) {
    var last := |l.rows| - 1;
    && last >= 0 && AllPlain(l.rows, l.p.id) && Numbered(l.rows) && Walk(l.rows)
    && l.rows[last].to == Known(l.p.state)
    && l.rows[0].at == Some(l.p.createdAt) && l.rows[last].at == Some(l.p.updatedAt)
    && Presence(l.p) && (l.p.hash.Some? ==> ValidHash(l.p.hash.value))
    && (forall i | 0 <= i < last :: HashPlaced(l.rows[i]))
    && (HashPlaced(l.rows[last]) <==> !FailedWhilePending(l.p))
    && (Ordered(l.rows) ==> InOrder(l.p))
  }

  lemma {:induction false} EventIsPlain(p: Payment, op: Op, t: int, id: int)
    requires Guard(p, op, t) && id > 0 && (p.hash.Some? ==> ValidHash(p.hash.value))
    ensures Plain(EventRow(p, op, t, id), p.id)
  {
    hide ValidCode, OperatorCode, ValidHash, Text;
    CodeFacts(VerifiedCode);
    CodeFacts(StartedCode);
    CodeFacts(SettlingCode);
    CodeFacts(UnknownCode);
    CodeFacts(PendingCode);
    CodeFacts(SettledCode);
    CodeFacts(ExpiredCode);
    CodeFacts(OperatorSettled);
    CodeFacts(OperatorStaleSettled);
    CodeFacts(OperatorFailed);
    CodeFacts(OperatorStaleFailed);
  }

  /** The event leaves the payment's state along an arrow and enters its new state. */
  lemma {:induction false} EventIsEdge(p: Payment, op: Op, t: int, id: int)
    requires Guard(p, op, t) && Presence(p)
    ensures var row := EventRow(p, op, t, id);
            row.from == Known(p.state) && row.to == Known(After(p, op, t).state) && Edge(p.state, row.to.state)
            && row.at == Some(t) && row.id == id
  {
    hide ValidCode, OperatorCode, ValidHash, Text;
  }

  lemma {:induction false} EventIsPlaced(p: Payment, op: Op, t: int, id: int)
    requires Guard(p, op, t) && Presence(p) && (p.hash.Some? ==> ValidHash(p.hash.value))
    ensures HashPlaced(EventRow(p, op, t, id)) <==> !FailedWhilePending(After(p, op, t))
  {
    hide ValidCode, OperatorCode, Text, EventCode;
  }

  lemma {:induction false} StepKeepsPresence(p: Payment, op: Op, t: int)
    requires Guard(p, op, t) && Presence(p)
    ensures Presence(After(p, op, t))
  {
    hide ValidCode, OperatorCode, ValidHash, Text;
    FailureCodesDiffer();
  }

  lemma {:induction false} StepKeepsOrder(p: Payment, op: Op, t: int)
    requires Guard(p, op, t) && Presence(p) && InOrder(p) && t >= p.updatedAt >= p.createdAt
    ensures InOrder(After(p, op, t))
  {
    hide ValidCode, OperatorCode, ValidHash, Text;
  }

  lemma {:induction false} OrderedPrefix(rows: seq<Row>, row: Row)
    requires forall i | 0 <= i < |rows| :: rows[i].at.Some?
    requires row.at.Some? && Ordered(rows + [row])
    ensures Ordered(rows)
    ensures forall i | 0 <= i < |rows| :: rows[i].at.value <= row.at.value
  {
    var all := rows + [row];
    forall i, j | 0 <= i < j < |rows| ensures rows[i].at.value <= rows[j].at.value {
      assert all[i].at.value <= all[j].at.value;
    }
    forall i | 0 <= i < |rows| ensures rows[i].at.value <= row.at.value {
      assert all[i].at.value <= all[|rows|].at.value;
    }
  }

  lemma {:induction false} ExtendLog(rows: seq<Row>, row: Row, id: nat)
    requires rows != [] && AllPlain(rows, id) && Numbered(rows) && Walk(rows)
    requires Plain(row, id) && row.id > rows[|rows| - 1].id
    requires rows[|rows| - 1].to.Known? && row.from == rows[|rows| - 1].to && row.to.Known? && Edge(rows[|rows| - 1].to.state, row.to.state)
    ensures AllPlain(rows + [row], id) && Numbered(rows + [row]) && Walk(rows + [row])
  {
    hide Plain, Edge, Walk, Numbered;
    AllPlainFacts(rows, id);
    assert AllPlain(rows + [row], id);
    AllPlainFacts(rows + [row], id);
    ExtendNumbers(rows, row);
    ExtendWalk(rows, row);
  }

  lemma {:induction false} ReserveStarts(id: nat, owner: nat, createdAt: int, expiresAt: int, eventId: int)
    requires eventId > 0
    ensures Inv(Reserve(id, owner, createdAt, expiresAt, eventId))
  {
    hide ValidCode, OperatorCode, Text;
    CodeFacts(ReservedCode);
  }

  lemma {:induction false} HashStaysValid(p: Payment, op: Op, t: int)
    requires Guard(p, op, t) && (p.hash.Some? ==> ValidHash(p.hash.value))
    ensures After(p, op, t).hash.Some? ==> ValidHash(After(p, op, t).hash.value)
    ensures After(p, op, t).id == p.id && After(p, op, t).createdAt == p.createdAt && After(p, op, t).updatedAt == t
  {
    hide ValidHash, ValidCode, OperatorCode, Text;
  }

  lemma {:induction false} TerminalStops(p: Payment, op: Op, t: int)
    requires Guard(p, op, t)
    ensures !Terminal(p.state)
  {
    hide ValidHash, ValidCode, OperatorCode, Text;
  }

  lemma {:induction false} StepKeeps(l: Ledgered, e: Entry)
    requires Inv(l) && Step(l, e).Some?
    ensures Inv(Step(l, e).value)
  {
    hide Guard, After, EventRow, Presence, InOrder, Text, ValidHash, HashPlaced, Walk, Plain, Numbered, Edge;
    var p, q, row := l.p, After(l.p, e.op, e.at), EventRow(l.p, e.op, e.at, e.eventId);
    var rows := l.rows + [row];
    var last := |l.rows| - 1;
    assert Guard(p, e.op, e.at);
    assert Plain(l.rows[last], p.id);
    PlainFacts(l.rows[last], p.id);
    EventIsPlain(p, e.op, e.at, e.eventId);
    EventIsEdge(p, e.op, e.at, e.eventId);
    EventIsPlaced(p, e.op, e.at, e.eventId);
    StepKeepsPresence(p, e.op, e.at);
    HashStaysValid(p, e.op, e.at);
    TerminalStops(p, e.op, e.at);
    ExtendLog(l.rows, row, p.id);
    assert HashPlaced(l.rows[last]);
    assert rows[|rows| - 1] == row && rows[0] == l.rows[0];
    assert forall i | 0 <= i <= last :: rows[i] == l.rows[i];
    assert AllPlain(l.rows, p.id);
    AllPlainFacts(l.rows, p.id);
    AllPlainFacts(rows, p.id);
    if Ordered(rows) {
      OrderedPrefix(l.rows, row);
      assert p.createdAt <= p.updatedAt <= e.at;
      StepKeepsOrder(p, e.op, e.at);
    }
  }

  lemma {:induction false} ReplayKeeps(l: Ledgered, entries: seq<Entry>)
    requires Inv(l) && Replay(l, entries).Some?
    ensures Inv(Replay(l, entries).value)
    decreases |entries|
  {
    hide Inv;
    InvNonEmpty(l);
    if entries != [] {
      StepKeeps(l, entries[0]);
      ReplayKeeps(Step(l, entries[0]).value, entries[1..]);
    }
  }

  lemma {:induction false} InvNonEmpty(l: Ledgered)
    requires Inv(l)
    ensures l.rows != []
  {
  }

  /**
   Every log the ledger writes is read back, exactly when the clock did not go back between
   two events and no operator failed a pending settlement. In ordered histories the payment's
   own facts always hold.
   */
  lemma {:induction false} LedgerLogs(id: nat, owner: nat, createdAt: int, expiresAt: int, eventId: int, entries: seq<Entry>)
    requires eventId > 0 && Replay(Reserve(id, owner, createdAt, expiresAt, eventId), entries).Some?
    ensures var l := Replay(Reserve(id, owner, createdAt, expiresAt, eventId), entries).value;
            && AllPlain(l.rows, id) && (forall i | 0 <= i < |l.rows| :: l.rows[i].at.Some?)
            && (AcceptedLog(SubjectOf(l.p), l.rows) <==> Ordered(l.rows) && !FailedWhilePending(l.p))
            && (Ordered(l.rows) ==> ValidPaymentStateFacts(l.p))
  {
    hide Replay, Reserve, Inv, AcceptedLog, ValidPaymentStateFacts;
    var start := Reserve(id, owner, createdAt, expiresAt, eventId);
    ReserveStarts(id, owner, createdAt, expiresAt, eventId);
    InvNonEmpty(start);
    ReplayKeeps(start, entries);
    SameId(start, entries);
    assert start.p.id == id by { ReserveFacts(id, owner, createdAt, expiresAt, eventId); }
    InvariantLogs(Replay(start, entries).value);
  }

  lemma {:induction false} ReserveFacts(id: nat, owner: nat, createdAt: int, expiresAt: int, eventId: int)
    ensures Reserve(id, owner, createdAt, expiresAt, eventId).p.id == id
  {
  }

  lemma {:induction false} InvariantLogs(l: Ledgered)
    requires Inv(l)
    ensures AllPlain(l.rows, l.p.id) && (forall i | 0 <= i < |l.rows| :: l.rows[i].at.Some?)
    ensures AcceptedLog(SubjectOf(l.p), l.rows) <==> Ordered(l.rows) && !FailedWhilePending(l.p)
    ensures Ordered(l.rows) ==> ValidPaymentStateFacts(l.p)
  {
    hide Presence, InOrder, HashPlaced, Plain, Walk, Numbered;
    AllPlainFacts(l.rows, l.p.id);
    var last := |l.rows| - 1;
    if Ordered(l.rows) {
      forall i | 0 <= i <= last ensures l.p.createdAt <= l.rows[i].at.value <= l.p.updatedAt {
        if 0 < i {
          assert l.rows[0].at.value <= l.rows[i].at.value;
        }
        if i < last {
          assert l.rows[i].at.value <= l.rows[last].at.value;
        }
      }
    }
  }

  lemma {:induction false} SameId(l: Ledgered, entries: seq<Entry>)
    requires l.rows != [] && Replay(l, entries).Some?
    ensures Replay(l, entries).value.p.id == l.p.id
    decreases |entries|
  {
    hide Guard, EventRow, Text;
    if entries != [] {
      SameId(Step(l, entries[0]).value, entries[1..]);
    }
  }

  lemma {:induction false} StepAppends(l: Ledgered, e: Entry)
    requires l.rows != [] && Guard(l.p, e.op, e.at) && e.eventId > l.rows[|l.rows| - 1].id
    ensures Step(l, e).Some? && Step(l, e).value.p == After(l.p, e.op, e.at)
    ensures Step(l, e).value.rows != [] && Step(l, e).value.rows[|Step(l, e).value.rows| - 1].id == e.eventId
  {
    hide Guard, After, EventCode, EventHash, EventFrom, EventTo;
  }

  lemma {:induction false} ReplayOne(l: Ledgered, entries: seq<Entry>)
    requires l.rows != [] && entries != [] && Step(l, entries[0]).Some?
    ensures Replay(l, entries) == Replay(Step(l, entries[0]).value, entries[1..])
  {
    hide Step;
  }

  lemma {:induction false} FourGuards(p: Payment, h: Bytes)
    requires ValidHash(h) && p == Reserve(1, 1, 0, 1000, 1).p
    ensures Guard(p, MarkVerified(5, None), 1)
    ensures var p1 := After(p, MarkVerified(5, None), 1); Guard(p1, BeginTopup, 2)
    ensures var p2 := After(After(p, MarkVerified(5, None), 1), BeginTopup, 2);
            Guard(p2, MarkPending(h), 3) && Guard(After(p2, MarkPending(h), 3), ReconcileFailed, 4)
            && FailedWhilePending(After(After(p2, MarkPending(h), 3), ReconcileFailed, 4))
  {
    hide Text, ValidHash;
  }

  /** The failing family is not empty: verified, settling, pending, then failed by an operator. */
  lemma {:induction false} PendingThenFailed(h: Bytes) returns (entries: seq<Entry>)
    requires ValidHash(h)
    ensures var r := Replay(Reserve(1, 1, 0, 1000, 1), entries);
            && r.Some? && FailedWhilePending(r.value.p)
            && !AcceptedLog(SubjectOf(r.value.p), r.value.rows)
            && (forall i | 0 <= i < |entries| :: entries[i].at == i + 1)
  {
    hide Text, ValidHash, EventRow, Step, Replay, AcceptedLog, Guard, After;
    var e1, e2 := Entry(MarkVerified(5, None), 1, 2), Entry(BeginTopup, 2, 3);
    var e3, e4 := Entry(MarkPending(h), 3, 4), Entry(ReconcileFailed, 4, 5);
    entries := [e1, e2, e3, e4];
    var l0 := Reserve(1, 1, 0, 1000, 1);
    FourGuards(l0.p, h);
    StepAppends(l0, e1);
    var l1 := Step(l0, e1).value;
    StepAppends(l1, e2);
    var l2 := Step(l1, e2).value;
    StepAppends(l2, e3);
    var l3 := Step(l2, e3).value;
    StepAppends(l3, e4);
    ReplayOne(l0, entries);
    ReplayOne(l1, entries[1..]);
    ReplayOne(l2, entries[1..][1..]);
    ReplayOne(l3, entries[1..][1..][1..]);
    ReplayNone(Step(l3, e4).value, entries[1..][1..][1..][1..]);
    LedgerLogs(1, 1, 0, 1000, 1, entries);
  }

  lemma {:induction false} ReplayNone(l: Ledgered, entries: seq<Entry>)
    requires l.rows != [] && entries == []
    ensures Replay(l, entries) == Some(l)
  {
  }

  // ----- the stamps of a payment are its events

  ghost predicate Logged(rows: seq<Row>, from: State, to: State, at: int) {
    exists i | 0 <= i < |rows| :: rows[i].from == Known(from) && rows[i].to == Known(to) && rows[i].at == Some(at)
  }

  /** How the last event names the end of a payment. */
  predicate EndsWith(p: Payment, row: Row) {
    match p.state
    case Settled => p.settledAt == row.at && p.hash == Some(row.hash)
    case Failed => p.failedAt == row.at && (row.actor.Runtime? ==> p.failure == Some(row.code))
    case Expired => p.expiredAt == row.at && p.failure == Some(row.code)
    case _ => true
  }

  /** Every stamp is the time of the event that entered the state; the last event names outcome and transaction. */
  ghost predicate Dated(l: Ledgered) {
    && l.rows != []
    && (l.p.verifiedAt.Some? ==> Logged(l.rows, Reserved, Verified, l.p.verifiedAt.value))
    && (l.p.settlingAt.Some? ==> Logged(l.rows, Verified, Settling, l.p.settlingAt.value))
    && EndsWith(l.p, l.rows[|l.rows| - 1])
    && l.rows[0].at == Some(l.p.createdAt) && l.rows[|l.rows| - 1].at == Some(l.p.updatedAt)
  }

  lemma {:induction false} LoggedLater(rows: seq<Row>, row: Row, from: State, to: State, at: int)
    requires Logged(rows, from, to, at) || (row.from == Known(from) && row.to == Known(to) && row.at == Some(at))
    ensures Logged(rows + [row], from, to, at)
  {
    var all := rows + [row];
    if Logged(rows, from, to, at) {
      var i :| 0 <= i < |rows| && rows[i].from == Known(from) && rows[i].to == Known(to) && rows[i].at == Some(at);
      assert all[i] == rows[i];
    } else {
      assert all[|rows|] == row;
    }
  }

  lemma {:induction false} StampsMove(p: Payment, op: Op, t: int, id: int)
    requires Guard(p, op, t) && Presence(p)
    ensures var q, row := After(p, op, t), EventRow(p, op, t, id);
            && (q.verifiedAt == p.verifiedAt || (q.verifiedAt == Some(t) && row.from == Known(Reserved) && row.to == Known(Verified)))
            && (q.settlingAt == p.settlingAt || (q.settlingAt == Some(t) && row.from == Known(Verified) && row.to == Known(Settling)))
            && EndsWith(q, row) && row.at == Some(t) && q.updatedAt == t && q.createdAt == p.createdAt
  {
    hide ValidCode, OperatorCode, ValidHash, Text;
  }

  lemma {:induction false} StepDated(l: Ledgered, e: Entry)
    requires Inv(l) && Dated(l) && Step(l, e).Some?
    ensures Dated(Step(l, e).value)
  {
    hide Guard, After, EventRow, Presence, InOrder, Text, ValidHash, HashPlaced, Walk, Plain, Numbered, Edge, Logged, EndsWith;
    var p, q, row := l.p, After(l.p, e.op, e.at), EventRow(l.p, e.op, e.at, e.eventId);
    StampsMove(p, e.op, e.at, e.eventId);
    if q.verifiedAt.Some? {
      LoggedLater(l.rows, row, Reserved, Verified, q.verifiedAt.value);
    }
    if q.settlingAt.Some? {
      LoggedLater(l.rows, row, Verified, Settling, q.settlingAt.value);
    }
    assert (l.rows + [row])[0] == l.rows[0];
  }

  lemma {:induction false} ReplayDated(l: Ledgered, entries: seq<Entry>)
    requires Inv(l) && Dated(l) && Replay(l, entries).Some?
    ensures Dated(Replay(l, entries).value)
    decreases |entries|
  {
    hide Inv, Dated, Step;
    InvNonEmpty(l);
    if entries != [] {
      StepStays(l, entries[0]);
      StepKeeps(l, entries[0]);
      StepDated(l, entries[0]);
      ReplayDated(Step(l, entries[0]).value, entries[1..]);
    }
  }

  lemma {:induction false} StepStays(l: Ledgered, e: Entry)
    requires l.rows != [] && Step(l, e).Some?
    ensures Step(l, e).value.rows != []
  {
    hide Guard, After, EventRow;
  }

  /** Over every history the stamps of a payment are the times of its events, and the last event tells how it ended. */
  lemma {:induction false} StampsAreEvents(id: nat, owner: nat, createdAt: int, expiresAt: int, eventId: int, entries: seq<Entry>)
    requires eventId > 0 && Replay(Reserve(id, owner, createdAt, expiresAt, eventId), entries).Some?
    ensures Dated(Replay(Reserve(id, owner, createdAt, expiresAt, eventId), entries).value)
  {
    hide Inv, Replay, Text;
    ReserveStarts(id, owner, createdAt, expiresAt, eventId);
    ReplayDated(Reserve(id, owner, createdAt, expiresAt, eventId), entries);
  }

  // ----- when a call is allowed

  /** A reservation can be verified before its deadline and expired from then on, never both. */
  lemma {:induction false} DeadlineDecides(p: Payment, payer: nat, user: Option<nat>, t: int)
    requires p.state.Reserved? && t >= p.createdAt
    ensures Guard(p, MarkVerified(payer, user), t) <==> t < p.expiresAt
    ensures Guard(p, Expire, t) <==> t >= p.expiresAt
  {
  }

  /** A marked settlement is decided by an operator alone; an unmarked one only after two minutes. */
  lemma {:induction false} OperatorWaits(p: Payment, op: Op, t: int)
    requires p.state.Settling? && p.settlingAt.Some? && t >= p.settlingAt.value && t >= p.updatedAt >= p.createdAt
    ensures p.failure == Some("settlement_unknown") || p.failure == Some("settlement_pending") ==>
              Guard(p, ReconcileFailed, t) && (Guard(p, op, t) ==> op.ReconcileSettled? || op.ReconcileFailed?)
    ensures p.failure.None? ==> (Guard(p, ReconcileFailed, t) <==> t - p.settlingAt.value >= 120_000_000_000)
  {
    hide ValidCode, OperatorCode, ValidHash;
  }

  /** A pending settlement is settled with its own transaction only. */
  lemma {:induction false} PendingKeepsTransaction(p: Payment, h: Bytes, t: int)
    requires p.hash.Some? && Guard(p, ReconcileSettled(h), t)
    ensures h == p.hash.value && After(p, ReconcileSettled(h), t).hash == p.hash
  {
    hide ValidHash, Text;
  }

  /** The codes that the events of each call carry. */
  lemma {:induction false} OpeningCodes(p: Payment, payer: nat, user: Option<nat>)
    ensures EventCode(p, MarkVerified(payer, user)) == "payment_verified" && EventCode(p, StartHandler) == "handler_started"
    ensures EventCode(p, MarkSettling) == EventCode(p, BeginTopup) == "settlement_started"
  {
  }

  lemma {:induction false} SettlementCodes(p: Payment, h: Bytes)
    ensures EventCode(p, MarkUnknown) == "settlement_unknown" && EventCode(p, MarkPending(h)) == "settlement_pending"
    ensures EventCode(p, MarkSettled(h)) == "payment_settled"
  {
  }

  lemma {:induction false} ClosingCodes(p: Payment, code: string)
    ensures EventCode(p, Expire) == "reservation_expired" && EventCode(p, Fail(code)) == code
  {
  }

  /** An operator's code tells whether the settlement had been marked. */
  lemma {:induction false} OperatorSettledCodes(p: Payment, h: Bytes)
    ensures p.failure.Some? ==> EventCode(p, ReconcileSettled(h)) == "operator_reconciled_settled"
    ensures p.failure.None? ==> EventCode(p, ReconcileSettled(h)) == "operator_reconciled_stale_settling_settled"
  {
  }

  lemma {:induction false} OperatorFailedCodes(p: Payment)
    ensures p.failure.Some? ==> EventCode(p, ReconcileFailed) == "operator_reconciled_failed"
    ensures p.failure.None? ==> EventCode(p, ReconcileFailed) == "operator_reconciled_stale_settling_failed"
  {
  }
}
