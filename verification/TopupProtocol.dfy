/**
 Concurrent top-up runs as a state machine, each with an observer of its own while the
 settlement request is out. Every ledger statement is one atomic step; a statement whose reply
 is lost may have had no effect, have taken effect, or take effect at any later time. Operators,
 the expiry sweeps and crashes interleave freely.
 */
module TopupProtocol {
  import opened Prelude
  import opened PaymentLog
  import opened TopupLedger

  /** The facilitator's reply to a settlement request. */
  datatype Answer =
    | Success(hash: Option<nat>, payer: nat, network: nat, encodable: bool)
    | StillPending(hash: Option<nat>)
    | Rejected
    | NoAnswer

  datatype Event =
    | Reservation(owned: bool)
    | Verification(valid: bool)
    | PaymentFailed(ok: bool)
    | VerifiedMarked(ok: bool)
    | SettlementBegun(ok: bool)
    | SettleSent
    | ProgressObserved
    | Joined(answer: Answer)
    | PendingMarked(ok: bool)
    | SettlementFailed(ok: bool)
    | UnknownMarked(ok: bool)
    | TopupCredited(ok: bool)
    | SuccessWritten
    | ErrorWritten

  /** Where a run stands: the next thing it will do. */
  datatype Pc =
    | Reserving | Verifying | Refusing | Marking | Beginning | Undoing
    | Sending | InFlight | Joining(answer: Answer) | Deciding(answer: Answer)
    | GivingUp | Reporting | Failing | Done | Crashed

  /** The observer of a run: it waits for the ticker, or is about to write the progress it was told. */
  datatype Watch = Off | Waiting(cancelled: bool) | Polled(seen: Option<nat>, cancelled: bool) | Gone

  predicate Running(w: Watch) {
    w.Waiting? || w.Polled?
  }

  function Cancelled(w: Watch): Watch {
    match w
    case Waiting(_) => Waiting(true)
    case Polled(seen, _) => Polled(seen, true)
    case _ => w
  }

  datatype Run = Run(fp: nat, intent: nat, payer: nat, network: nat, pc: Pc, watch: Watch, trace: seq<Event>)

  /** A statement that was sent and may take effect at any time. */
  datatype Sent = Sent(fp: nat, owner: nat, op: Op)

  datatype System = System(ledger: Ledger, runs: map<nat, Run>, delayed: set<Sent>)

  /** What the environment decides about one step. */
  datatype Input =
    | Statement(effect: Effect, heard: bool, late: bool)
    | Verdict(valid: bool)
    | Reply(answer: Answer)
    | Poll(seen: Option<Option<nat>>)
    | Write(effect: Effect)
    | Hangup
    | Leave
    | Join
    | Receipt(ok: bool)

  /** The settlement pays what the intent asked for. */
  predicate Matches(run: Run, a: Answer) {
    a.Success? && a.hash.Some? && a.payer == run.payer && a.network == run.network && a.encodable
  }

  /** The statement a run sends from its place, if that place sends one. */
  function Call(run: Run, late: bool): Option<Op> {
    match run.pc
    case Reserving => Some(Reserve(run.intent, run.payer))
    case Refusing => Some(FailPayment(run.intent, late))
    case Marking => Some(MarkVerified)
    case Beginning => Some(Begin(run.intent))
    case Undoing => Some(FailPayment(run.intent, late))
    case Deciding(a) =>
      if a.StillPending? && a.hash.Some? then Some(MarkPending(run.intent, a.hash.value))
      else if a.Rejected? then Some(FailSettlement(run.intent, late))
      else if Matches(run, a) then Some(Credit(a.hash.value))
      else None
    case GivingUp => Some(MarkUnknown(run.intent))
    case _ => None
  }

  function Log(run: Run, e: Event, pc: Pc, w: Watch): Run {
    run.(trace := run.trace + [e], pc := pc, watch := w)
  }

  /** How a run goes on after its statement succeeded or failed, as far as it heard. */
  function Heard(run: Run, ok: bool): Run {
    var w := run.watch;
    match run.pc
    case Reserving => Log(run, Reservation(ok), if ok then Verifying else Failing, w)
    case Refusing => Log(run, PaymentFailed(ok), Failing, w)
    case Marking => Log(run, VerifiedMarked(ok), if ok then Beginning else Undoing, w)
    // the observer starts with the settlement
    case Beginning => Log(run, SettlementBegun(ok), if ok then Sending else Undoing, if ok then Waiting(false) else w)
    case Undoing => Log(run, PaymentFailed(ok), Failing, w)
    case Deciding(a) =>
      if a.StillPending? then Log(run, PendingMarked(ok), if ok then Failing else GivingUp, w)
      else if a.Rejected? then Log(run, SettlementFailed(ok), if ok then Failing else GivingUp, w)
      else Log(run, TopupCredited(ok), if ok then Reporting else GivingUp, w)
    case GivingUp => Log(run, UnknownMarked(ok), Failing, w)
    case _ => run
  }

  /** The observer's own steps. A cancelled observer may still poll and write before it sees that. */
  function WatchStep(l: Ledger, r: nat, run: Run, input: Input): Option<(Ledger, Run)> {
    match input
    case Poll(told) =>
      if run.watch.Waiting?
      then Some((l, if told.None? then run else run.(watch := Polled(told.value, run.watch.cancelled))))
      else None
    case Write(effect) =>
      if run.watch.Polled?
      then Some((if effect.Now? then Exec(l, run.fp, r, Observe(run.intent, run.watch.seen)).ledger else l,
                 Log(run, ProgressObserved, run.pc, Waiting(run.watch.cancelled))))
      else None
    case Leave => if run.watch == Waiting(true) then Some((l, run.(watch := Gone))) else None
    // the client's going away cancels the observer as well
    case Hangup => Some((l, run.(watch := Cancelled(run.watch))))
    case _ => None
  }

  /** One step of a run; `None` when the input does not fit its place. */
  function RunStep(l: Ledger, r: nat, run: Run, input: Input): Option<(Ledger, Run)> {
    match input
    case Statement(effect, heard, late) =>
      (match Call(run, late)
       case Some(op) =>
         var out := Exec(l, run.fp, r, op);
         if effect.Now? then Some((out.ledger, Heard(run, out.ok && heard))) else Some((l, Heard(run, false)))
       case None => if run.pc.Deciding? then Some((l, run.(pc := GivingUp))) else None)
    case Verdict(valid) =>
      if run.pc.Verifying?
      then Some((l, Log(run, Verification(valid), if valid then Marking else Refusing, run.watch)))
      else None
    case Reply(a) =>
      if run.pc.Sending? then Some((l, Log(run, SettleSent, InFlight, run.watch)))
      else if run.pc.InFlight? then Some((l, run.(pc := Joining(a), watch := Cancelled(run.watch))))
      else None
    case Join =>
      if run.pc.Joining? && run.watch.Gone?
      then Some((l, Log(run, Joined(run.pc.answer), Deciding(run.pc.answer), Gone)))
      else None
    case Receipt(ok) =>
      if run.pc.Reporting? then Some((l, Log(run, if ok then SuccessWritten else ErrorWritten, Done, run.watch)))
      else if run.pc.Failing? then Some((l, Log(run, ErrorWritten, Done, run.watch)))
      else None
    case _ => WatchStep(l, r, run, input)
  }

  /** The statement that a step leaves to take effect later. */
  function Postponed(r: nat, run: Run, input: Input): set<Sent> {
    match input
    case Statement(Later, _, late) =>
      if Call(run, late).Some? then {Sent(run.fp, r, Call(run, late).value)} else {}
    case Write(Later) =>
      if run.watch.Polled? then {Sent(run.fp, r, Observe(run.intent, run.watch.seen))} else {}
    case _ => {}
  }

  datatype Action =
    | Act(r: nat, input: Input)
    | Arrive(r: nat, fp: nat, intent: nat)
    | Crash(r: nat)
    | TakeEffect(sent: Sent)
    | Operate(fp: nat, op: Op)
    | CreateIntent(i: nat, user: nat, credit: nat, payer: nat, network: nat)
    | Lapse(i: nat)

  predicate ByEnvironment(op: Op) {
    op.OperatorSettle? || op.OperatorFail? || op.Expire?
  }

  /** A system step. A run starts from a snapshot of its intent, however old; run ids are fresh. */
  function Next(s: System, a: Action): Option<System> {
    match a
    case Act(r, input) =>
      if r !in s.runs then None
      else (match RunStep(s.ledger, r, s.runs[r], input)
            case None => None
            case Some(step) =>
              Some(System(step.0, s.runs[r := step.1], s.delayed + Postponed(r, s.runs[r], input))))
    case Arrive(r, fp, i) =>
      if r in s.runs || i !in s.ledger.intents then None
      else var it := s.ledger.intents[i];
           Some(s.(runs := s.runs[r := Run(fp, i, it.payer, it.network, Reserving, Off, [])]))
    case Crash(r) =>
      if r !in s.runs then None else Some(s.(runs := s.runs[r := s.runs[r].(pc := Crashed, watch := Gone)]))
    case TakeEffect(d) =>
      if d !in s.delayed then None else Some(s.(ledger := Exec(s.ledger, d.fp, d.owner, d.op).ledger))
    case Operate(fp, op) =>
      if ByEnvironment(op) then Some(s.(ledger := Exec(s.ledger, fp, 0, op).ledger)) else None
    case CreateIntent(i, user, credit, payer, network) =>
      if i in s.ledger.intents then None
      else Some(s.(ledger := NewIntent(s.ledger, i, user, credit, payer, network)))
    case Lapse(i) => Some(s.(ledger := LapseIntent(s.ledger, i)))
  }

  // ----- what a trace may look like

  predicate Before(run: Run, i: nat, e: Event)
    requires i <= |run.trace|
  {
    e in run.trace[..i]
  }

  /** A settlement request comes once, after reservation, verification, marking and beginning. */
  ghost predicate SettleOrder(run: Run) {
    forall i | 0 <= i < |run.trace| && run.trace[i].SettleSent? ::
      && Before(run, i, Reservation(true)) && Before(run, i, Verification(true))
      && Before(run, i, VerifiedMarked(true)) && Before(run, i, SettlementBegun(true))
      && !Before(run, i, SettleSent)
  }

  /** After the request the payment is never failed as if nothing had been sent. */
  ghost predicate NoLateFailure(run: Run) {
    forall i | 0 <= i < |run.trace| && run.trace[i].PaymentFailed? :: !Before(run, i, SettleSent)
  }

  /** A settlement is failed only on the facilitator's rejection. */
  ghost predicate RejectionOnly(run: Run) {
    forall i | 0 <= i < |run.trace| && run.trace[i].SettlementFailed? :: Before(run, i, Joined(Rejected))
  }

  ghost predicate HasJoined(run: Run, i: nat)
    requires i <= |run.trace|
  {
    exists k | 0 <= k < i :: run.trace[k].Joined?
  }

  /** No observation after the observer was joined. */
  ghost predicate ObservedInFlight(run: Run) {
    forall i | 0 <= i < |run.trace| && run.trace[i].ProgressObserved? ::
      Before(run, i, SettlementBegun(true)) && !HasJoined(run, i)
  }

  ghost predicate MatchedBefore(run: Run, i: nat)
    requires i <= |run.trace|
  {
    exists k | 0 <= k < i :: run.trace[k].Joined? && Matches(run, run.trace[k].answer)
  }

  /** Credit only for a matching settlement, and success only after the credit. */
  ghost predicate CreditThenSuccess(run: Run) {
    && (forall i | 0 <= i < |run.trace| && run.trace[i].TopupCredited? :: MatchedBefore(run, i))
    && (forall i | 0 <= i < |run.trace| && run.trace[i].SuccessWritten? ::
          Before(run, i, TopupCredited(true)) && MatchedBefore(run, i))
  }

  predicate Marked(run: Run) {
    || PendingMarked(true) in run.trace || PendingMarked(false) in run.trace
    || UnknownMarked(true) in run.trace || UnknownMarked(false) in run.trace
  }

  /** A finished run that sent the request was credited, was rejected, or tried to mark the doubt. */
  ghost predicate DoubtIsMarked(run: Run) {
    run.pc.Done? && SettleSent in run.trace ==>
      TopupCredited(true) in run.trace || SettlementFailed(true) in run.trace || Marked(run)
  }

  ghost predicate TraceOk(run: Run) {
    && SettleOrder(run) && NoLateFailure(run) && RejectionOnly(run) && ObservedInFlight(run)
    && CreditThenSuccess(run) && DoubtIsMarked(run)
  }

  // ----- what a place knows of its trace

  ghost predicate NoJoin(run: Run) {
    !HasJoined(run, |run.trace|)
  }

  /** Later milestones imply the earlier ones. */
  predicate Chain(run: Run) {
    && (SettlementBegun(true) in run.trace ==> Reservation(true) in run.trace)
    && (SettleSent in run.trace ==> SettlementBegun(true) in run.trace)
    && (TopupCredited(true) in run.trace ==> SettleSent in run.trace)
  }

  predicate Early(run: Run) {
    SettleSent !in run.trace && SettlementBegun(true) !in run.trace
  }

  ghost predicate PcOk(run: Run) {
    match run.pc
    case Reserving => Early(run) && NoJoin(run)
    case Verifying => Early(run) && NoJoin(run) && Reservation(true) in run.trace
    case Refusing => Early(run) && NoJoin(run)
    case Marking => Early(run) && NoJoin(run) && Reservation(true) in run.trace && Verification(true) in run.trace
    case Beginning =>
      && Early(run) && NoJoin(run) && Reservation(true) in run.trace
      && Verification(true) in run.trace && VerifiedMarked(true) in run.trace
    case Undoing => Early(run) && NoJoin(run)
    case Sending =>
      && SettleSent !in run.trace && NoJoin(run) && Reservation(true) in run.trace
      && Verification(true) in run.trace && VerifiedMarked(true) in run.trace && SettlementBegun(true) in run.trace
    case InFlight => SettleSent in run.trace && SettlementBegun(true) in run.trace && NoJoin(run)
    case Joining(_) => SettleSent in run.trace && SettlementBegun(true) in run.trace && NoJoin(run)
    case Deciding(a) => SettleSent in run.trace && Joined(a) in run.trace
    case GivingUp => SettleSent in run.trace
    case Reporting => SettleSent in run.trace && TopupCredited(true) in run.trace && MatchedBefore(run, |run.trace|)
    case Failing => DoubtIsMarked(run.(pc := Done))
    case Done => true
    case Crashed => true
  }

  /** From the beginning of the settlement until the observer is joined. */
  predicate OutForSettlement(pc: Pc) {
    pc.Sending? || pc.InFlight? || pc.Joining?
  }

  /** The observer runs only between the two. */
  predicate WatchOk(run: Run) {
    Running(run.watch) ==> OutForSettlement(run.pc)
  }

  /** What appending `e` asks of the trace so far. */
  ghost predicate Fits(run: Run, e: Event) {
    && (e.SettleSent? ==>
          && Reservation(true) in run.trace && Verification(true) in run.trace
          && VerifiedMarked(true) in run.trace && SettlementBegun(true) in run.trace && SettleSent !in run.trace)
    && (e.PaymentFailed? ==> SettleSent !in run.trace)
    && (e.SettlementFailed? ==> Joined(Rejected) in run.trace)
    && (e.ProgressObserved? ==> SettlementBegun(true) in run.trace && NoJoin(run))
    && (e.TopupCredited? ==> MatchedBefore(run, |run.trace|))
    && (e.SuccessWritten? ==> TopupCredited(true) in run.trace && MatchedBefore(run, |run.trace|))
  }

  lemma {:induction false} BeforeLogged(run: Run, e: Event, pc: Pc, w: Watch, i: nat, x: Event)
    requires i <= |run.trace|
    ensures Before(Log(run, e, pc, w), i, x) <==> Before(run, i, x)
    ensures i == |run.trace| ==> (Before(run, i, x) <==> x in run.trace)
  {
    assert Log(run, e, pc, w).trace[..i] == run.trace[..i];
    if i == |run.trace| {
      assert run.trace[..i] == run.trace;
    }
  }

  lemma {:induction false} LogSettles(run: Run, e: Event, pc: Pc, w: Watch)
    requires SettleOrder(run) && NoLateFailure(run) && RejectionOnly(run) && Fits(run, e)
    ensures SettleOrder(Log(run, e, pc, w)) && NoLateFailure(Log(run, e, pc, w)) && RejectionOnly(Log(run, e, pc, w))
  {
    hide Before;
    var n := |run.trace|;
    var q := Log(run, e, pc, w);
    forall i, x | 0 <= i <= n ensures Before(q, i, x) <==> Before(run, i, x) {
      BeforeLogged(run, e, pc, w, i, x);
    }
    forall x ensures Before(run, n, x) <==> x in run.trace {
      BeforeLogged(run, e, pc, w, n, x);
    }
    assert q.trace[n] == e && forall i | 0 <= i < n :: q.trace[i] == run.trace[i];
  }

  lemma {:induction false} LogObserves(run: Run, e: Event, pc: Pc, w: Watch)
    requires ObservedInFlight(run) && Fits(run, e)
    ensures ObservedInFlight(Log(run, e, pc, w))
  {
    hide Before;
    var n := |run.trace|;
    var q := Log(run, e, pc, w);
    assert q.trace[n] == e && forall i | 0 <= i < n :: q.trace[i] == run.trace[i];
    forall i | 0 <= i < |q.trace| && q.trace[i].ProgressObserved?
      ensures Before(q, i, SettlementBegun(true)) && !HasJoined(q, i)
    {
      BeforeLogged(run, e, pc, w, i, SettlementBegun(true));
      if i < n {
        assert run.trace[i].ProgressObserved?;
      }
      assert !HasJoined(run, i);
    }
  }

  lemma {:induction false} MatchedStays(run: Run, e: Event, pc: Pc, w: Watch, i: nat)
    requires i <= |run.trace| && MatchedBefore(run, i)
    ensures MatchedBefore(Log(run, e, pc, w), i)
  {
    var k :| 0 <= k < i && run.trace[k].Joined? && Matches(run, run.trace[k].answer);
    var q := Log(run, e, pc, w);
    assert q.trace[k] == run.trace[k] && Matches(q, q.trace[k].answer);
  }

  lemma {:induction false} LogCredits(run: Run, e: Event, pc: Pc, w: Watch)
    requires CreditThenSuccess(run) && Fits(run, e)
    ensures CreditThenSuccess(Log(run, e, pc, w))
  {
    hide Before, MatchedBefore;
    var n := |run.trace|;
    var q := Log(run, e, pc, w);
    assert q.trace[n] == e && forall i | 0 <= i < n :: q.trace[i] == run.trace[i];
    forall i | 0 <= i < |q.trace| && (q.trace[i].TopupCredited? || q.trace[i].SuccessWritten?)
      ensures MatchedBefore(q, i) && (q.trace[i].SuccessWritten? ==> Before(q, i, TopupCredited(true)))
    {
      BeforeLogged(run, e, pc, w, i, TopupCredited(true));
      assert MatchedBefore(run, i);
      MatchedStays(run, e, pc, w, i);
    }
  }

  /** Appending an event that fits keeps the trace properties. */
  lemma {:induction false} LogKeeps(run: Run, e: Event, pc: Pc, w: Watch)
    requires TraceOk(run) && Fits(run, e) && DoubtIsMarked(Log(run, e, pc, w))
    ensures TraceOk(Log(run, e, pc, w))
  {
    hide SettleOrder, NoLateFailure, RejectionOnly, ObservedInFlight, CreditThenSuccess, Fits, DoubtIsMarked;
    LogSettles(run, e, pc, w);
    LogObserves(run, e, pc, w);
    LogCredits(run, e, pc, w);
  }

  lemma {:induction false} JoinedLater(run: Run, e: Event, pc: Pc, w: Watch)
    requires NoJoin(run) && !e.Joined?
    ensures NoJoin(Log(run, e, pc, w))
  {
  }

  lemma {:induction false} LogMembers(run: Run, e: Event, pc: Pc, w: Watch)
    ensures forall x :: x in Log(run, e, pc, w).trace <==> x in run.trace || x == e
  {
  }

  /** The events a place can emit, and where they lead. */
  predicate Emits(run: Run, e: Event, pc: Pc) {
    match run.pc
    case Reserving => e.Reservation? && pc == (if e.owned then Verifying else Failing)
    case Verifying => e.Verification? && pc == (if e.valid then Marking else Refusing)
    case Refusing => e.PaymentFailed? && pc.Failing?
    case Marking => e.VerifiedMarked? && pc == (if e.ok then Beginning else Undoing)
    case Beginning => e.SettlementBegun? && pc == (if e.ok then Sending else Undoing)
    case Undoing => e.PaymentFailed? && pc.Failing?
    case Sending => e.SettleSent? && pc.InFlight?
    case InFlight => false
    case Joining(a) => e == Joined(a) && pc == Deciding(a)
    case Deciding(a) =>
      || (e.PendingMarked? && pc == (if e.ok then Failing else GivingUp))
      || (e.SettlementFailed? && a.Rejected? && pc == (if e.ok then Failing else GivingUp))
      || (e.TopupCredited? && Matches(run, a) && pc == (if e.ok then Reporting else GivingUp))
    case GivingUp => e.UnknownMarked? && pc.Failing?
    case Reporting => (e.SuccessWritten? || e.ErrorWritten?) && pc.Done?
    case Failing => e.ErrorWritten? && pc.Done?
    case Done => false
    case Crashed => false
  }

  /** An event of the run itself: its observer starts with the settlement and is gone when joined. */
  predicate Speaks(run: Run, e: Event, pc: Pc, w: Watch) {
    && Emits(run, e, pc)
    && w == (if e == SettlementBegun(true) then Waiting(false) else run.watch)
    && (e.Joined? ==> w.Gone?)
  }

  /** An event of the observer. */
  predicate Observes(run: Run, e: Event, pc: Pc, w: Watch) {
    e.ProgressObserved? && run.watch.Polled? && pc == run.pc && w == Waiting(run.watch.cancelled)
  }

  /** A step without an event. */
  predicate Quiet(run: Run, pc: Pc, w: Watch) {
    || (run.pc.Deciding? && pc.GivingUp? && w == run.watch)
    || (run.pc.InFlight? && pc.Joining? && w == Cancelled(run.watch))
    || (pc == run.pc && (Running(w) ==> Running(run.watch)))
  }

  /** The run became `q`, with or without an event. */
  predicate Moves(run: Run, q: Run) {
    || (q == run.(pc := q.pc, watch := q.watch) && Quiet(run, q.pc, q.watch))
    || (&& |q.trace| == |run.trace| + 1
        && var e := q.trace[|run.trace|];
           q == Log(run, e, q.pc, q.watch) && (Speaks(run, e, q.pc, q.watch) || Observes(run, e, q.pc, q.watch)))
  }

  lemma {:induction false} HeardMoves(run: Run, ok: bool, late: bool)
    requires Call(run, late).Some?
    ensures Moves(run, Heard(run, ok))
  {
    hide Observes, Quiet;
    var q := Heard(run, ok);
    var e := q.trace[|run.trace|];
    assert q == Log(run, e, q.pc, q.watch);
  }

  lemma {:induction false} WatchMoves(l: Ledger, r: nat, run: Run, input: Input)
    requires WatchStep(l, r, run, input).Some?
    ensures Moves(run, WatchStep(l, r, run, input).value.1)
  {
    hide Exec, Speaks;
  }

  lemma {:induction false} StepEmits(l: Ledger, r: nat, run: Run, input: Input)
    requires RunStep(l, r, run, input).Some?
    ensures Moves(run, RunStep(l, r, run, input).value.1)
  {
    hide Exec, Heard, WatchStep;
    match input {
      case Statement(effect, heard, late) =>
        if Call(run, late).Some? {
          HeardMoves(run, true, late);
          HeardMoves(run, false, late);
        }
      case Verdict(valid) =>
      case Reply(a) =>
      case Join =>
      case Receipt(ok) =>
      case _ => WatchMoves(l, r, run, input);
    }
  }

  lemma {:induction false} MatchedHere(run: Run, a: Answer)
    requires Joined(a) in run.trace && Matches(run, a)
    ensures MatchedBefore(run, |run.trace|)
  {
    var k :| 0 <= k < |run.trace| && run.trace[k] == Joined(a);
    assert run.trace[k].Joined? && Matches(run, run.trace[k].answer);
  }

  ghost predicate PlaceOk(run: Run) {
    PcOk(run) && Chain(run) && WatchOk(run)
  }

  /** Up to the settlement request. */
  lemma {:induction false} EarlyEmits(run: Run, e: Event, pc: Pc, w: Watch)
    requires PlaceOk(run) && Speaks(run, e, pc, w)
    requires run.pc.Reserving? || run.pc.Verifying? || run.pc.Refusing? || run.pc.Marking? || run.pc.Beginning? || run.pc.Undoing?
    ensures Fits(run, e) && PlaceOk(Log(run, e, pc, w)) && DoubtIsMarked(Log(run, e, pc, w))
  {
    hide NoJoin, MatchedBefore;
    LogMembers(run, e, pc, w);
    JoinedLater(run, e, pc, w);
  }

  /** From the request until the observer is joined; the observer itself speaks only here. */
  lemma {:induction false} FlightEmits(run: Run, e: Event, pc: Pc, w: Watch)
    requires PlaceOk(run) && OutForSettlement(run.pc) && (Speaks(run, e, pc, w) || Observes(run, e, pc, w))
    ensures Fits(run, e) && PlaceOk(Log(run, e, pc, w)) && DoubtIsMarked(Log(run, e, pc, w))
  {
    hide NoJoin, MatchedBefore;
    LogMembers(run, e, pc, w);
    if !e.Joined? {
      JoinedLater(run, e, pc, w);
    }
  }

  /** From the joining to the end. */
  lemma {:induction false} LateEmits(run: Run, e: Event, pc: Pc, w: Watch)
    requires PlaceOk(run) && Speaks(run, e, pc, w)
    requires run.pc.Deciding? || run.pc.GivingUp? || run.pc.Reporting? || run.pc.Failing?
    ensures Fits(run, e) && PlaceOk(Log(run, e, pc, w)) && DoubtIsMarked(Log(run, e, pc, w))
  {
    hide NoJoin, MatchedBefore;
    LogMembers(run, e, pc, w);
    if run.pc.Deciding? && Matches(run, run.pc.answer) {
      MatchedHere(run, run.pc.answer);
    }
    if MatchedBefore(run, |run.trace|) {
      MatchedStays(run, e, pc, w, |run.trace|);
      MatchedLonger(Log(run, e, pc, w), |run.trace|);
    }
  }

  lemma {:induction false} MatchedLonger(run: Run, i: nat)
    requires i <= |run.trace| && MatchedBefore(run, i)
    ensures MatchedBefore(run, |run.trace|)
  {
  }

  lemma {:induction false} SilentStep(run: Run, pc: Pc, w: Watch)
    requires TraceOk(run) && PlaceOk(run) && Quiet(run, pc, w)
    ensures TraceOk(run.(pc := pc, watch := w)) && PlaceOk(run.(pc := pc, watch := w))
  {
    hide TraceOk, NoJoin, MatchedBefore, DoubtIsMarked;
    Repositioned(run, pc, w);
  }

  lemma {:induction false} Repositioned(run: Run, pc: Pc, w: Watch)
    requires TraceOk(run) && (pc.Done? ==> run.pc.Done?)
    ensures var q := run.(pc := pc, watch := w);
            && TraceOk(q) && (NoJoin(run) ==> NoJoin(q))
            && (MatchedBefore(run, |run.trace|) ==> MatchedBefore(q, |run.trace|))
            && (DoubtIsMarked(run.(pc := Done)) <==> DoubtIsMarked(q.(pc := Done)))
  {
    var q := run.(pc := pc, watch := w);
    assert forall i, x | 0 <= i <= |run.trace| :: Before(q, i, x) <==> Before(run, i, x);
    assert forall i | 0 <= i <= |run.trace| :: HasJoined(q, i) <==> HasJoined(run, i);
    forall i | 0 <= i <= |run.trace| && MatchedBefore(run, i) ensures MatchedBefore(q, i) {
      var k :| 0 <= k < i && run.trace[k].Joined? && Matches(run, run.trace[k].answer);
      assert q.trace[k].Joined? && Matches(q, q.trace[k].answer);
    }
  }

  /** The trace part of a run's step. */
  lemma {:induction false} StepTrace(l: Ledger, r: nat, run: Run, input: Input)
    requires TraceOk(run) && PlaceOk(run) && RunStep(l, r, run, input).Some?
    ensures var q := RunStep(l, r, run, input).value.1; TraceOk(q) && PlaceOk(q)
  {
    hide TraceOk, PlaceOk, RunStep, Emits, Quiet, Fits, DoubtIsMarked;
    var q := RunStep(l, r, run, input).value.1;
    StepEmits(l, r, run, input);
    if q == run.(pc := q.pc, watch := q.watch) && Quiet(run, q.pc, q.watch) {
      SilentStep(run, q.pc, q.watch);
    } else {
      var e := q.trace[|run.trace|];
      if OutForSettlement(run.pc) {
        FlightEmits(run, e, q.pc, q.watch);
      } else {
        Moving(run, e, q.pc, q.watch);
        if run.pc.Deciding? || run.pc.GivingUp? || run.pc.Reporting? || run.pc.Failing? {
          LateEmits(run, e, q.pc, q.watch);
        } else {
          EarlyEmits(run, e, q.pc, q.watch);
        }
      }
      LogKeeps(run, e, q.pc, q.watch);
    }
  }

  lemma {:induction false} Moving(run: Run, e: Event, pc: Pc, w: Watch)
    requires PlaceOk(run) && !OutForSettlement(run.pc) && (Speaks(run, e, pc, w) || Observes(run, e, pc, w))
    ensures Speaks(run, e, pc, w) && !run.pc.Done? && !run.pc.Crashed?
  {
  }

  // ----- what a run knows of the ledger

  /** The intent is held by this payment and cannot be paid by another. */
  predicate Locked(l: Ledger, fp: nat, i: nat) {
    && i in l.intents && l.intents[i].active == Some(fp)
    && (l.intents[i].phase.Submitted? || l.intents[i].phase.Credited? || l.intents[i].phase.Lost?)
  }

  predicate Mine(l: Ledger, r: nat, run: Run) {
    run.fp in l.pays && l.pays[run.fp].owner == r && l.pays[run.fp].intent == run.intent
  }

  /** What a statement that the run heard succeed has left in the ledger, for good or until an operator decides. */
  predicate Shown(l: Ledger, fp: nat, e: Event) {
    match e
    case VerifiedMarked(true) => fp in l.pays && !l.pays[fp].state.Reserved?
    case PaymentFailed(true) => fp in l.pays && l.pays[fp].state.Failed?
    case SettlementFailed(true) => fp in l.pays && l.pays[fp].state.Failed?
    case PendingMarked(true) =>
      fp in l.pays && (l.pays[fp].state.Settled? || l.pays[fp].state.Failed? || (l.pays[fp].state.Settling? && l.pays[fp].mark.Pending?))
    case UnknownMarked(true) =>
      fp in l.pays && (l.pays[fp].state.Settled? || l.pays[fp].state.Failed? || (l.pays[fp].state.Settling? && l.pays[fp].mark.Unknown?))
    case TopupCredited(true) => fp in l.pays && l.pays[fp].state.Settled?
    case _ => true
  }

  /** The run holds the terms of its intent, which never change. */
  predicate Terms(l: Ledger, run: Run) {
    run.intent in l.intents && l.intents[run.intent].payer == run.payer && l.intents[run.intent].network == run.network
  }

  /** The joined reply reported a settlement by this payer on this network, and the payment names its transaction. */
  ghost predicate Paid(l: Ledger, run: Run) {
    && run.fp in l.pays
    && exists k | 0 <= k < |run.trace| ::
         && run.trace[k].Joined? && run.trace[k].answer.Success? && run.trace[k].answer.hash.Some?
         && run.trace[k].answer.payer == run.payer && run.trace[k].answer.network == run.network
         && l.pays[run.fp].hash == run.trace[k].answer.hash
  }

  ghost predicate Knows(l: Ledger, r: nat, run: Run) {
    && Terms(l, run) && (TopupCredited(true) in run.trace ==> Paid(l, run))
    && (Reservation(true) in run.trace ==> Mine(l, r, run))
    && (SettlementBegun(true) in run.trace && Joined(Rejected) !in run.trace ==> Locked(l, run.fp, run.intent))
    && (forall e | e in run.trace :: Shown(l, run.fp, e))
  }

  /** No statement changes the identity of a payment or undoes its settlement. */
  lemma {:induction false} ExecIdentity(l: Ledger, fp: nat, owner: nat, op: Op, f: nat)
    requires f in l.pays
    ensures var m := Exec(l, fp, owner, op).ledger;
            f in m.pays && m.pays[f].owner == l.pays[f].owner && m.pays[f].intent == l.pays[f].intent
            && (l.pays[f].state.Settled? ==> m.pays[f] == l.pays[f])
            && (l.pays[f].state.Failed? ==> m.pays[f].state.Failed?)
            && (!l.pays[f].state.Reserved? ==> !m.pays[f].state.Reserved?)
            && (l.pays[f].state.Settling? && !l.pays[f].mark.Clear? ==>
                  m.pays[f].state.Settled? || m.pays[f].state.Failed? || m.pays[f] == l.pays[f])
  {
  }

  lemma {:induction false} ExecTerms(l: Ledger, fp: nat, owner: nat, op: Op, run: Run)
    requires Terms(l, run)
    ensures Terms(Exec(l, fp, owner, op).ledger, run)
  {
  }

  lemma {:induction false} PaidStays(l: Ledger, m: Ledger, run: Run)
    requires Paid(l, run) && run.fp in m.pays && m.pays[run.fp] == l.pays[run.fp]
    ensures Paid(m, run)
  {
  }

  lemma {:induction false} PaidLonger(l: Ledger, run: Run, e: Event, pc: Pc, w: Watch)
    requires Paid(l, run)
    ensures Paid(l, Log(run, e, pc, w))
  {
    var k :| 0 <= k < |run.trace| && run.trace[k].Joined? && run.trace[k].answer.Success? && run.trace[k].answer.hash.Some?
             && run.trace[k].answer.payer == run.payer && run.trace[k].answer.network == run.network
             && l.pays[run.fp].hash == run.trace[k].answer.hash;
    assert Log(run, e, pc, w).trace[k] == run.trace[k];
  }

  /** A credit that took effect is paid for. */
  lemma {:induction false} CallPays(l: Ledger, r: nat, run: Run, op: Op, late: bool)
    requires PcOk(run) && Call(run, late) == Some(op) && op.Credit? && Exec(l, run.fp, r, op).ok
    ensures Paid(Exec(l, run.fp, r, op).ledger, run)
  {
    hide NoJoin, MatchedBefore, DoubtIsMarked, Settle;
    var a := run.pc.answer;
    SettleFacts(l, run.fp, op.hash);
    var k :| 0 <= k < |run.trace| && run.trace[k] == Joined(a);
    assert run.trace[k].answer == a;
  }

  lemma {:induction false} ShownStays(l: Ledger, fp: nat, owner: nat, op: Op, f: nat, e: Event)
    requires Shown(l, f, e)
    ensures Shown(Exec(l, fp, owner, op).ledger, f, e)
  {
    hide Exec;
    if f in l.pays {
      ExecIdentity(l, fp, owner, op, f);
    }
  }

  /** Only the owner's failed settlement releases a locked intent. */
  lemma {:induction false} LockKept(l: Ledger, fp: nat, owner: nat, op: Op, f: nat, i: nat)
    requires LedgerInv(l) && Locked(l, f, i)
    requires op.FailSettlement? ==> fp != f || !Owned(l, fp, owner)
    ensures Locked(Exec(l, fp, owner, op).ledger, f, i)
  {
    hide LedgerInv;
    if fp in l.pays {
      Holds(l, fp);
    }
  }

  lemma {:induction false} CreditedIsSettled(l: Ledger, fp: nat, e: Event)
    requires Shown(l, fp, e) && e == TopupCredited(true)
    ensures fp in l.pays && l.pays[fp].state.Settled?
  {
  }

  lemma {:induction false} ExecKnows(l: Ledger, fp: nat, owner: nat, op: Op, r: nat, run: Run)
    requires LedgerInv(l) && Knows(l, r, run) && Chain(run)
    requires op.FailSettlement? && fp == run.fp ==> owner != r || Joined(Rejected) in run.trace
    ensures Knows(Exec(l, fp, owner, op).ledger, r, run)
  {
    hide LedgerInv, Exec, Locked, Shown, Terms, Paid;
    if run.fp in l.pays {
      ExecIdentity(l, fp, owner, op, run.fp);
    }
    ExecTerms(l, fp, owner, op, run);
    if TopupCredited(true) in run.trace {
      CreditedIsSettled(l, run.fp, TopupCredited(true));
      PaidStays(l, Exec(l, fp, owner, op).ledger, run);
    }
    forall e | e in run.trace ensures Shown(Exec(l, fp, owner, op).ledger, run.fp, e) {
      ShownStays(l, fp, owner, op, run.fp, e);
    }
    if SettlementBegun(true) in run.trace && Joined(Rejected) !in run.trace {
      LockKept(l, fp, owner, op, run.fp, run.intent);
    }
  }

  /** What a successful statement establishes for its run. */
  lemma {:induction false} CallFacts(l: Ledger, r: nat, run: Run, op: Op, late: bool)
    requires LedgerInv(l) && Call(run, late) == Some(op) && Exec(l, run.fp, r, op).ok
    ensures var m := Exec(l, run.fp, r, op).ledger;
            && (op.Reserve? ==> Mine(m, r, run))
            && (op.Begin? ==> Locked(m, run.fp, run.intent))
  {
    hide LedgerInv;
  }

  /** What the run will say of it is true in the ledger. */
  lemma {:induction false} CallShows(l: Ledger, r: nat, run: Run, op: Op, late: bool)
    requires LedgerInv(l) && Call(run, late) == Some(op) && Exec(l, run.fp, r, op).ok
    ensures var q := Heard(run, true);
            |q.trace| == |run.trace| + 1 && Shown(Exec(l, run.fp, r, op).ledger, run.fp, q.trace[|run.trace|])
  {
    hide LedgerInv, Settle;
    if run.fp in l.pays {
      Holds(l, run.fp);
      if op.Credit? {
        SettleFacts(l, run.fp, op.hash);
      }
    }
  }

  lemma {:induction false} LogKnows(l: Ledger, r: nat, run: Run, e: Event, pc: Pc, w: Watch)
    requires Knows(l, r, run)
    requires e == Reservation(true) ==> Mine(l, r, run)
    requires e == SettlementBegun(true) ==> Locked(l, run.fp, run.intent)
    requires Shown(l, run.fp, e)
    requires e == TopupCredited(true) ==> Paid(l, run)
    ensures Knows(l, r, Log(run, e, pc, w))
  {
    hide Locked, Shown, Paid;
    LogMembers(run, e, pc, w);
    if TopupCredited(true) in Log(run, e, pc, w).trace {
      PaidLonger(l, run, e, pc, w);
    }
  }

  lemma {:induction false} FailureShowsNothing(l: Ledger, run: Run, late: bool)
    requires Call(run, late).Some?
    ensures var q := Heard(run, false); |q.trace| == |run.trace| + 1 && forall m :: Shown(m, run.fp, q.trace[|run.trace|])
  {
  }

  /** A statement of the run, applied or not, heard or not. */
  lemma {:induction false} StatementKnows(l: Ledger, r: nat, run: Run, effect: Effect, heard: bool, late: bool)
    requires LedgerInv(l) && Knows(l, r, run) && Chain(run) && PcOk(run) && Call(run, late).Some?
    ensures var step := RunStep(l, r, run, Statement(effect, heard, late));
            step.Some? && Knows(step.value.0, r, step.value.1)
  {
    hide LedgerInv, Exec, Knows, Mine, Locked, Paid;
    var op := Call(run, late).value;
    FailureShowsNothing(l, run, late);
    var out := Exec(l, run.fp, r, op);
    var m, ok := if effect.Now? then out.ledger else l, effect.Now? && out.ok && heard;
    if effect.Now? {
      ExecKnows(l, run.fp, r, op, r, run);
    }
    if ok {
      CallFacts(l, r, run, op, late);
      CallShows(l, r, run, op, late);
      if op.Credit? {
        CallPays(l, r, run, op, late);
      }
    }
    var q := Heard(run, ok);
    var e := q.trace[|run.trace|];
    assert q == Log(run, e, q.pc, q.watch);
    LogKnows(m, r, run, e, q.pc, q.watch);
  }

  /** The ledger part of a run's step, for the run itself. */
  lemma {:induction false} StepKnows(l: Ledger, r: nat, run: Run, input: Input)
    requires LedgerInv(l) && Knows(l, r, run) && Chain(run) && PcOk(run) && RunStep(l, r, run, input).Some?
    ensures Knows(RunStep(l, r, run, input).value.0, r, RunStep(l, r, run, input).value.1)
  {
    hide LedgerInv, Exec, Locked, Mine;
    var q := RunStep(l, r, run, input).value.1;
    match input {
      case Statement(effect, heard, late) =>
        if Call(run, late).Some? {
          StatementKnows(l, r, run, effect, heard, late);
        } else {
          SameKnowledge(l, r, run, q);
        }
      case Write(effect) =>
        ExecKnows(l, run.fp, r, Observe(run.intent, run.watch.seen), r, run);
        LogKnows(RunStep(l, r, run, input).value.0, r, run, ProgressObserved, q.pc, q.watch);
      case Verdict(valid) => LogKnows(l, r, run, Verification(valid), q.pc, q.watch);
      case Reply(a) =>
        if run.pc.Sending? {
          LogKnows(l, r, run, SettleSent, q.pc, q.watch);
        } else {
          SameKnowledge(l, r, run, q);
        }
      case Join => LogKnows(l, r, run, Joined(run.pc.answer), q.pc, q.watch);
      case Receipt(ok) => LogKnows(l, r, run, q.trace[|run.trace|], q.pc, q.watch);
      case _ => SameKnowledge(l, r, run, q);
    }
  }

  /** The statement executed by a run's step, if any. */
  function Executed(run: Run, input: Input): Option<Op> {
    match input
    case Statement(effect, _, late) => if effect.Now? then Call(run, late) else None
    case Write(effect) => if effect.Now? && run.watch.Polled? then Some(Observe(run.intent, run.watch.seen)) else None
    case _ => None
  }

  lemma {:induction false} StepExecutes(l: Ledger, r: nat, run: Run, input: Input)
    requires RunStep(l, r, run, input).Some?
    ensures var m := RunStep(l, r, run, input).value.0;
            m == (if Executed(run, input).Some? then Exec(l, run.fp, r, Executed(run, input).value).ledger else l)
  {
    hide Exec;
  }

  // ----- the system invariant

  ghost predicate RunOk(l: Ledger, r: nat, run: Run) {
    TraceOk(run) && PlaceOk(run) && Knows(l, r, run)
  }

  /** A delayed failure of a settlement was sent by a run that heard the rejection. */
  predicate SentOk(runs: map<nat, Run>, d: Sent) {
    d.op.FailSettlement? ==> d.owner in runs && Joined(Rejected) in runs[d.owner].trace
  }

  ghost predicate Inv(s: System) {
    && LedgerInv(s.ledger) && Traced(s.ledger)
    && (forall r | r in s.runs :: RunOk(s.ledger, r, s.runs[r]))
    && (forall d | d in s.delayed :: SentOk(s.runs, d))
  }

  /** The statements of a step: a settlement is failed only by a run that heard the rejection. */
  lemma {:induction false} StepSends(l: Ledger, r: nat, run: Run, input: Input)
    requires PlaceOk(run) && RunStep(l, r, run, input).Some?
    ensures Executed(run, input).Some? && Executed(run, input).value.FailSettlement? ==> Joined(Rejected) in run.trace
    ensures forall d | d in Postponed(r, run, input) ::
              d.owner == r && (d.op.FailSettlement? ==> Joined(Rejected) in run.trace)
    ensures run.trace <= RunStep(l, r, run, input).value.1.trace
  {
    hide Exec, NoJoin, MatchedBefore, DoubtIsMarked;
    StepEmits(l, r, run, input);
  }

  lemma {:induction false} ActKeeps(s: System, r: nat, input: Input)
    requires Inv(s) && r in s.runs && RunStep(s.ledger, r, s.runs[r], input).Some?
    ensures Inv(Next(s, Act(r, input)).value)
  {
    hide LedgerInv, Traced, TraceOk, PlaceOk, Knows, RunStep, Exec, Executed, Postponed;
    var run := s.runs[r];
    var m, q := RunStep(s.ledger, r, run, input).value.0, RunStep(s.ledger, r, run, input).value.1;
    assert RunOk(s.ledger, r, run);
    StepTrace(s.ledger, r, run, input);
    StepExecutes(s.ledger, r, run, input);
    StepSends(s.ledger, r, run, input);
    assert Knows(m, r, q) by { KnowsAfter(s.ledger, r, run, input); }
    if Executed(run, input).Some? {
      ExecKeeps(s.ledger, run.fp, r, Executed(run, input).value);
      ExecTraced(s.ledger, run.fp, r, Executed(run, input).value);
    }
    var t := Next(s, Act(r, input)).value;
    forall k | k in t.runs ensures RunOk(t.ledger, k, t.runs[k]) {
      if k != r {
        assert RunOk(s.ledger, k, s.runs[k]);
        if Executed(run, input).Some? {
          KnowsStill(s.ledger, run.fp, r, Executed(run, input).value, k, s.runs[k]);
        }
      }
    }
    forall d | d in t.delayed ensures SentOk(t.runs, d) {
      if d in s.delayed {
        assert SentOk(s.runs, d);
      }
    }
  }

  lemma {:induction false} KnowsAfter(l: Ledger, r: nat, run: Run, input: Input)
    requires LedgerInv(l) && RunOk(l, r, run) && RunStep(l, r, run, input).Some?
    ensures Knows(RunStep(l, r, run, input).value.0, r, RunStep(l, r, run, input).value.1)
  {
    hide LedgerInv, TraceOk, Knows, RunStep;
    StepKnows(l, r, run, input);
  }

  lemma {:induction false} KnowsStill(l: Ledger, fp: nat, owner: nat, op: Op, r: nat, run: Run)
    requires LedgerInv(l) && RunOk(l, r, run)
    requires op.FailSettlement? ==> owner != r || Joined(Rejected) in run.trace
    ensures RunOk(Exec(l, fp, owner, op).ledger, r, run)
  {
    hide LedgerInv, TraceOk, Knows, Exec;
    ExecKnows(l, fp, owner, op, r, run);
  }

  /** A delayed statement takes effect. */
  lemma {:induction false} EffectKeeps(s: System, d: Sent)
    requires Inv(s) && d in s.delayed
    ensures Inv(Next(s, TakeEffect(d)).value)
  {
    hide LedgerInv, Traced, RunOk, Exec;
    ExecKeeps(s.ledger, d.fp, d.owner, d.op);
    ExecTraced(s.ledger, d.fp, d.owner, d.op);
    assert SentOk(s.runs, d);
    var t := Next(s, TakeEffect(d)).value;
    forall k | k in t.runs ensures RunOk(t.ledger, k, t.runs[k]) {
      KnowsStill(s.ledger, d.fp, d.owner, d.op, k, s.runs[k]);
    }
  }

  lemma {:induction false} CrashKeeps(s: System, r: nat)
    requires Inv(s) && r in s.runs
    ensures Inv(Next(s, Crash(r)).value)
  {
    hide LedgerInv, TraceOk, Knows;
    var t := Next(s, Crash(r)).value;
    forall k | k in t.runs ensures RunOk(t.ledger, k, t.runs[k]) {
      assert RunOk(s.ledger, k, s.runs[k]);
      if k == r {
        Repositioned(s.runs[r], Crashed, Gone);
        SameKnowledge(s.ledger, r, s.runs[r], t.runs[r]);
      }
    }
    forall d | d in t.delayed ensures SentOk(t.runs, d) {
      assert SentOk(s.runs, d);
    }
  }

  lemma {:induction false} SameKnowledge(l: Ledger, r: nat, run: Run, q: Run)
    requires Knows(l, r, run) && q.trace == run.trace && q.fp == run.fp && q.intent == run.intent
    requires q.payer == run.payer && q.network == run.network
    ensures Knows(l, r, q)
  {
  }

  lemma {:induction false} ArriveKeeps(s: System, r: nat, fp: nat, i: nat)
    requires Inv(s) && r !in s.runs && i in s.ledger.intents
    ensures Inv(Next(s, Arrive(r, fp, i)).value)
  {
    hide LedgerInv, RunOk;
    var t := Next(s, Arrive(r, fp, i)).value;
    forall k | k in t.runs ensures RunOk(t.ledger, k, t.runs[k]) {
      if k == r {
        NewRunOk(t.ledger, r, t.runs[k]);
      }
    }
    forall d | d in t.delayed ensures SentOk(t.runs, d) {
      assert SentOk(s.runs, d);
    }
  }

  lemma {:induction false} NewRunOk(l: Ledger, r: nat, run: Run)
    requires run.trace == [] && run.pc.Reserving? && run.watch.Off? && Terms(l, run)
    ensures RunOk(l, r, run)
  {
  }

  lemma {:induction false} OperateKeeps(s: System, fp: nat, op: Op)
    requires Inv(s) && ByEnvironment(op)
    ensures Inv(Next(s, Operate(fp, op)).value)
  {
    hide LedgerInv, Traced, RunOk, Exec, SentOk;
    ExecKeeps(s.ledger, fp, 0, op);
    ExecTraced(s.ledger, fp, 0, op);
    var t := Next(s, Operate(fp, op)).value;
    forall k | k in t.runs ensures RunOk(t.ledger, k, t.runs[k]) {
      KnowsStill(s.ledger, fp, 0, op, k, s.runs[k]);
    }
  }

  lemma {:induction false} IntentsKeep(s: System, a: Action)
    requires Inv(s) && (a.CreateIntent? || a.Lapse?) && Next(s, a).Some?
    ensures Inv(Next(s, a).value)
  {
    hide LedgerInv, TraceOk, PlaceOk, SentOk;
    if a.CreateIntent? {
      NewIntentKeeps(s.ledger, a.i, a.user, a.credit, a.payer, a.network);
    } else {
      LapseKeeps(s.ledger, a.i);
    }
    var t := Next(s, a).value;
    forall k | k in t.runs ensures RunOk(t.ledger, k, t.runs[k]) {
      assert RunOk(s.ledger, k, s.runs[k]);
    }
  }

  lemma {:induction false} NextKeeps(s: System, a: Action)
    requires Inv(s) && Next(s, a).Some?
    ensures Inv(Next(s, a).value)
  {
    hide Inv, RunStep, Exec;
    match a {
      case Act(r, input) => ActKeeps(s, r, input);
      case Arrive(r, fp, i) => ArriveKeeps(s, r, fp, i);
      case Crash(r) => CrashKeeps(s, r);
      case TakeEffect(d) => EffectKeeps(s, d);
      case Operate(fp, op) => OperateKeeps(s, fp, op);
      case _ => IntentsKeep(s, a);
    }
  }

  const EMPTY := System(Ledger(map[], map[], map[], []), map[], {})

  function Play(s: System, actions: seq<Action>): Option<System>
    decreases |actions|
  {
    if actions == [] then Some(s)
    else match Next(s, actions[0])
         case None => None
         case Some(t) => Play(t, actions[1..])
  }

  lemma {:induction false} PlayKeeps(s: System, actions: seq<Action>)
    requires Inv(s) && Play(s, actions).Some?
    ensures Inv(Play(s, actions).value)
    decreases |actions|
  {
    hide Inv, Next;
    if actions != [] {
      NextKeeps(s, actions[0]);
      PlayKeeps(Next(s, actions[0]).value, actions[1..]);
    }
  }

  lemma {:induction false} Reached(actions: seq<Action>)
    requires Play(EMPTY, actions).Some?
    ensures Inv(Play(EMPTY, actions).value)
  {
    PlayKeeps(EMPTY, actions);
  }

  // ----- safety over whole runs

  /** Every run of every reachable system has an admissible trace, and the books balance. */
  lemma {:induction false} TracesAreOk(actions: seq<Action>, r: nat)
    requires Play(EMPTY, actions).Some? && r in Play(EMPTY, actions).value.runs
    ensures TraceOk(Play(EMPTY, actions).value.runs[r]) && LedgerInv(Play(EMPTY, actions).value.ledger)
  {
    hide Play, TraceOk, LedgerInv;
    Reached(actions);
    assert RunOk(Play(EMPTY, actions).value.ledger, r, Play(EMPTY, actions).value.runs[r]);
  }

  /** One fingerprint has at most one owner, hence at most one settlement request. */
  lemma {:induction false} OneSettlementPerFingerprint(actions: seq<Action>, r: nat, q: nat)
    requires Play(EMPTY, actions).Some?
    requires r in Play(EMPTY, actions).value.runs && q in Play(EMPTY, actions).value.runs
    requires var s := Play(EMPTY, actions).value;
             s.runs[r].fp == s.runs[q].fp && Reservation(true) in s.runs[r].trace && Reservation(true) in s.runs[q].trace
    ensures r == q
    ensures var trace := Play(EMPTY, actions).value.runs[r].trace;
            forall i, j | 0 <= i < |trace| && 0 <= j < |trace| && trace[i].SettleSent? && trace[j].SettleSent? :: i == j
  {
    hide Play, LedgerInv, NoLateFailure, RejectionOnly, ObservedInFlight, CreditThenSuccess, DoubtIsMarked, PcOk;
    Reached(actions);
    var s := Play(EMPTY, actions).value;
    assert RunOk(s.ledger, r, s.runs[r]) && RunOk(s.ledger, q, s.runs[q]);
    SentOnce(s.runs[r]);
  }

  lemma {:induction false} SentOnce(run: Run)
    requires SettleOrder(run)
    ensures forall i, j | 0 <= i < |run.trace| && 0 <= j < |run.trace|
              && run.trace[i].SettleSent? && run.trace[j].SettleSent? :: i == j
  {
  }

  /**
   An intent is asked to settle by one payment only, unless the facilitator definitely
   rejected the earlier ones: while one settlement is open to doubt no other can start.
   */
  lemma {:induction false} OneOpenSettlementPerIntent(actions: seq<Action>, r: nat, q: nat)
    requires Play(EMPTY, actions).Some?
    requires r in Play(EMPTY, actions).value.runs && q in Play(EMPTY, actions).value.runs
    requires var s := Play(EMPTY, actions).value;
             && s.runs[r].intent == s.runs[q].intent
             && SettleSent in s.runs[r].trace && Joined(Rejected) !in s.runs[r].trace
             && SettleSent in s.runs[q].trace && Joined(Rejected) !in s.runs[q].trace
    ensures r == q
  {
    hide Play, LedgerInv, TraceOk, PcOk;
    Reached(actions);
    var s := Play(EMPTY, actions).value;
    assert RunOk(s.ledger, r, s.runs[r]) && RunOk(s.ledger, q, s.runs[q]);
  }

  /**
   What a run heard succeed is in the ledger: verified, failed, marked or credited, for good or, for
   a mark, until an operator decides. A settled payment names the transaction that was observed.
   */
  lemma {:induction false} HeardIsStored(actions: seq<Action>, r: nat)
    requires Play(EMPTY, actions).Some? && r in Play(EMPTY, actions).value.runs
    ensures var s := Play(EMPTY, actions).value;
            Traced(s.ledger) && forall e | e in s.runs[r].trace :: Shown(s.ledger, s.runs[r].fp, e)
  {
    hide Play, LedgerInv, TraceOk, PlaceOk, Shown, Traced;
    Reached(actions);
    var s := Play(EMPTY, actions).value;
    assert RunOk(s.ledger, r, s.runs[r]);
  }

  /**
   A credit answers the intent: the facilitator reported a settlement by the intent's payer on the
   intent's network, and the payment is settled under that transaction.
   */
  lemma {:induction false} CreditMatches(actions: seq<Action>, r: nat) returns (k: nat)
    requires Play(EMPTY, actions).Some? && r in Play(EMPTY, actions).value.runs
    requires TopupCredited(true) in Play(EMPTY, actions).value.runs[r].trace
    ensures var s := Play(EMPTY, actions).value;
            var run := s.runs[r];
            && run.intent in s.ledger.intents && run.fp in s.ledger.pays && s.ledger.pays[run.fp].state.Settled?
            && k < |run.trace| && run.trace[k].Joined? && run.trace[k].answer.Success?
            && run.trace[k].answer.payer == s.ledger.intents[run.intent].payer
            && run.trace[k].answer.network == s.ledger.intents[run.intent].network
            && run.trace[k].answer.hash.Some? && s.ledger.pays[run.fp].hash == run.trace[k].answer.hash
  {
    hide Play, LedgerInv, Traced, TraceOk, PlaceOk;
    Reached(actions);
    var s := Play(EMPTY, actions).value;
    var run := s.runs[r];
    assert RunOk(s.ledger, r, run);
    assert Shown(s.ledger, run.fp, TopupCredited(true));
    k :| 0 <= k < |run.trace| && run.trace[k].Joined? && run.trace[k].answer.Success? && run.trace[k].answer.hash.Some?
         && run.trace[k].answer.payer == run.payer && run.trace[k].answer.network == run.network
         && s.ledger.pays[run.fp].hash == run.trace[k].answer.hash;
  }

  /** When the success writer ran, the payment is settled and its intent was credited once. */
  lemma {:induction false} SuccessIsCredited(actions: seq<Action>, r: nat) returns (k: nat)
    requires Play(EMPTY, actions).Some? && r in Play(EMPTY, actions).value.runs
    requires SuccessWritten in Play(EMPTY, actions).value.runs[r].trace
    ensures var s := Play(EMPTY, actions).value;
            var run := s.runs[r];
            && run.fp in s.ledger.pays && s.ledger.pays[run.fp].owner == r && s.ledger.pays[run.fp].state.Settled?
            && run.intent in s.ledger.intents && s.ledger.intents[run.intent].phase.Credited?
            && k < |s.ledger.entries| && s.ledger.entries[k].source == run.fp
            && s.ledger.entries[k].amount == s.ledger.intents[run.intent].credit
            && MatchedBefore(run, |run.trace|)
  {
    hide Play, LedgerInv, Traced, SettleOrder, NoLateFailure, RejectionOnly, ObservedInFlight, DoubtIsMarked, PcOk, MatchedBefore;
    Reached(actions);
    var s := Play(EMPTY, actions).value;
    var run := s.runs[r];
    assert RunOk(s.ledger, r, run);
    var i :| 0 <= i < |run.trace| && run.trace[i] == SuccessWritten;
    assert Before(run, i, TopupCredited(true)) && MatchedBefore(run, i);
    assert TopupCredited(true) in run.trace && Shown(s.ledger, run.fp, TopupCredited(true));
    MatchedLonger(run, i);
    Holds(s.ledger, run.fp);
    k := CreditedOnce(s.ledger, run.intent);
  }

  /** After a settlement request the payment is never reserved, verified or expired again. */
  lemma {:induction false} SentStaysSettling(actions: seq<Action>, r: nat)
    requires Play(EMPTY, actions).Some? && r in Play(EMPTY, actions).value.runs
    requires SettleSent in Play(EMPTY, actions).value.runs[r].trace
    requires Joined(Rejected) !in Play(EMPTY, actions).value.runs[r].trace
    ensures var s := Play(EMPTY, actions).value;
            var run := s.runs[r];
            && Locked(s.ledger, run.fp, run.intent)
            && run.fp in s.ledger.pays
            && (s.ledger.pays[run.fp].state.Settling? || s.ledger.pays[run.fp].state.Settled? || s.ledger.pays[run.fp].state.Failed?)
            && (s.ledger.pays[run.fp].state.Failed? ==> s.ledger.intents[run.intent].phase.Lost?)
  {
    hide Play, TraceOk, PcOk, Recorded, Balanced;
    Reached(actions);
    var s := Play(EMPTY, actions).value;
    var run := s.runs[r];
    assert RunOk(s.ledger, r, run);
    assert IntentOk(s.ledger, run.intent);
  }
}
