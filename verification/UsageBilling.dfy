/**
 Metered calls: reserve credit, run the handler into the recorder, then commit or release
 the charge, and only then answer the client.
 */
module UsageBilling {
  import opened Prelude
  import opened ResponseCapture

  datatype ReleaseCode = Panicked | Canceled | CaptureInvalid | BodyTooLarge | HeadersTooLarge | StreamingUnsupported | NotChargeable

  datatype Failure = BillingUnavailable | CreditRequired | LedgerUnavailable | QueryFailed | RequestCanceled
    | ResponseInvalid | CommitUnknown

  /** What a run does, in order. */
  datatype Event =
    | ReserveCall(ok: bool)
    | CommitCall(digest: Bytes, length: nat, ok: bool)
    | ReleaseCall(code: ReleaseCode, ok: bool)
    | Answered(status: int, headers: Headers, body: Bytes)
    | Refused(failure: Failure)

  datatype ReserveReply = Reserved | Insufficient | Unavailable

  /** The limits of the dispatcher, and everything a run is told from outside. */
  datatype Config = Config(maxBody: nat, maxHeader: int, digest: Bytes -> Bytes, spelling: Spelling)

  /** `headers` are those already set for the client when the call comes. */
  datatype Call = Call(
    admissible: bool, headers: Headers, maxBody: int, reserve: ReserveReply, ops: seq<HandlerOp>, panics: bool, canceled: bool,
    chargeable: (int, Headers, Bytes) -> bool, releaseOk: bool, commitOk: bool)

  /** The smaller of the two body limits; a limit of the call that is not positive is ignored. */
  function BodyLimitOf(c: Config, call: Call): nat {
    if call.maxBody <= 0 then c.maxBody else if call.maxBody < c.maxBody then call.maxBody else c.maxBody
  }

  lemma {:induction false} BodyLimitIsSmaller(c: Config, call: Call)
    ensures BodyLimitOf(c, call) == if call.maxBody >= 1 then Min(call.maxBody, c.maxBody) else c.maxBody
  {
  }

  /** The response of the handler as the recorder without limits sees it. */
  function Response(call: Call): Sheet {
    Started(PerformAll(BLANK, call.ops))
  }

  ghost predicate Ready(c: Config, call: Call) {
    && call.admissible && call.reserve.Reserved? && !call.panics && !call.canceled
    && Deliverable(Response(call), BodyLimitOf(c, call), c.maxHeader)
  }

  function SnapshotOf(s: Sheet): Headers {
    if s.snapshot.Some? then s.snapshot.value else s.header
  }

  predicate Charged(call: Call) {
    call.chargeable(Response(call).status, SnapshotOf(Response(call)), Written(call.ops))
  }

  // ----- what every run must look like

  predicate Decides(e: Event) {
    e.CommitCall? || e.ReleaseCall?
  }

  predicate Closes(e: Event) {
    e.Answered? || e.Refused?
  }

  function Count(events: seq<Event>, which: Event -> bool): nat {
    if events == [] then 0
    else Count(events[..|events| - 1], which) + if which(events[|events| - 1]) then 1 else 0
  }

  /** One decision per reservation and none without; one answer to the client, at the end. */
  predicate Disciplined(events: seq<Event>) {
    && events != [] && Closes(events[|events| - 1]) && Count(events, Closes) == 1
    && Count(events, Decides) == (if ReserveCall(true) in events then 1 else 0)
  }

  /** A captured response leaves only after its charge was committed, or released as free of charge. */
  ghost predicate PaidFirst(events: seq<Event>) {
    forall i | 0 <= i < |events| && events[i].Answered? ::
      exists j | 0 <= j < i :: (events[j].CommitCall? && events[j].ok) || events[j] == ReleaseCall(NotChargeable, true)
  }

  lemma {:induction false} CountThree(a: Event, b: Event, c: Event, which: Event -> bool)
    ensures Count([a], which) == (if which(a) then 1 else 0)
    ensures Count([a, b], which) == Count([a], which) + (if which(b) then 1 else 0)
    ensures Count([a, b, c], which) == Count([a, b], which) + (if which(c) then 1 else 0)
  {
    assert [a][..0] == [] && [a, b][..1] == [a] && [a, b, c][..2] == [a, b];
  }

  lemma {:induction false} Shape2(a: Event, c: Event)
    requires (a.ReserveCall? && !a.ok) && c.Refused?
    ensures Disciplined([a, c]) && PaidFirst([a, c])
  {
    CountThree(a, c, c, Closes);
    CountThree(a, c, c, Decides);
  }

  lemma {:induction false} Shape3(b: Event, c: Event)
    requires Decides(b) && Closes(c)
    requires c.Answered? ==> (b.CommitCall? && b.ok) || b == ReleaseCall(NotChargeable, true)
    ensures Disciplined([ReserveCall(true), b, c]) && PaidFirst([ReserveCall(true), b, c])
  {
    CountThree(ReserveCall(true), b, c, Closes);
    CountThree(ReserveCall(true), b, c, Decides);
    var events := [ReserveCall(true), b, c];
    assert events[1] == b && events[2] == c;
  }

  function FinishCode(f: Finish): ReleaseCode {
    match f
    case Fine => CaptureInvalid
    case Streaming => StreamingUnsupported
    case HeaderLimit => HeadersTooLarge
    case BodyLimit => BodyTooLarge
  }

  /** Why the charge of an admitted call is released, if it is. */
  ghost function Cause(c: Config, call: Call): Option<ReleaseCode> {
    if call.panics then Some(Panicked)
    else if call.canceled then Some(Canceled)
    else match FinishOf(Response(call), BodyLimitOf(c, call), c.maxHeader)
         case Streaming => Some(StreamingUnsupported)
         case HeaderLimit => Some(HeadersTooLarge)
         case BodyLimit => Some(BodyTooLarge)
         case Fine => if Charged(call) then None else Some(NotChargeable)
  }

  /** Every release names its cause, and a charge is released exactly when it has one. */
  ghost predicate Explained(c: Config, call: Call, events: seq<Event>) {
    && (forall e | e in events && e.ReleaseCall? :: Cause(c, call) == Some(e.code))
    && ((exists e :: e in events && e.ReleaseCall?) <==> call.admissible && call.reserve.Reserved? && Cause(c, call).Some?)
    && (Refused(CreditRequired) in events <==> call.admissible && call.reserve.Insufficient?)
  }

  /** What a client is told that gets no response, by what went wrong first. */
  ghost function Reason(c: Config, call: Call): Failure {
    if !call.admissible then BillingUnavailable
    else if call.reserve.Insufficient? then CreditRequired
    else if call.reserve.Unavailable? then LedgerUnavailable
    else match Cause(c, call)
         case None => CommitUnknown
         case Some(Canceled) => RequestCanceled
         case Some(code) => if !call.releaseOk then LedgerUnavailable else if code.Panicked? then QueryFailed else ResponseInvalid
  }

  /** Causes and reasons of a reserved call, case by case. */
  lemma {:induction false} ReasonOf(c: Config, call: Call)
    requires call.admissible && call.reserve.Reserved?
    ensures call.panics ==> Cause(c, call) == Some(Panicked) && Reason(c, call) == if call.releaseOk then QueryFailed else LedgerUnavailable
    ensures !call.panics && call.canceled ==> Cause(c, call) == Some(Canceled) && Reason(c, call) == RequestCanceled
    ensures var f := FinishOf(Response(call), BodyLimitOf(c, call), c.maxHeader);
            !call.panics && !call.canceled ==>
              if !f.Fine? then && Cause(c, call) == Some(FinishCode(f))
                               && Reason(c, call) == if call.releaseOk then ResponseInvalid else LedgerUnavailable
              else if Charged(call) then Cause(c, call) == None && Reason(c, call) == CommitUnknown
              else Cause(c, call) == Some(NotChargeable) && (!call.releaseOk ==> Reason(c, call) == LedgerUnavailable)
  {
    hide FinishOf, Response, Charged;
  }

  ghost predicate Reasoned(c: Config, call: Call, events: seq<Event>) {
    forall e | e in events && e.Refused? :: e.failure == Reason(c, call)
  }

  lemma {:induction false} Releases(c: Config, call: Call, code: ReleaseCode, ok: bool, last: Event)
    requires call.admissible && call.reserve.Reserved? && Cause(c, call) == Some(code) && Closes(last) && last != Refused(CreditRequired)
    requires last.Refused? ==> last.failure == Reason(c, call)
    ensures Explained(c, call, [ReserveCall(true), ReleaseCall(code, ok), last])
    ensures Reasoned(c, call, [ReserveCall(true), ReleaseCall(code, ok), last])
  {
    hide Cause, Reason;
    var events := [ReserveCall(true), ReleaseCall(code, ok), last];
    assert events[1] in events;
    assert forall e | e in events :: e == events[0] || e == events[1] || e == events[2];
  }

  lemma {:induction false} Uncharged(c: Config, call: Call, events: seq<Event>)
    requires !(call.admissible && call.reserve.Reserved?) && forall e | e in events :: !e.ReleaseCall?
    requires Refused(CreditRequired) in events <==> call.admissible && call.reserve.Insufficient?
    requires forall e | e in events && e.Refused? :: e.failure == Reason(c, call)
    ensures Explained(c, call, events) && Reasoned(c, call, events)
  {
    hide Cause, Reason;
  }

  lemma {:induction false} Commits(c: Config, call: Call, commit: Event, last: Event)
    requires call.admissible && call.reserve.Reserved? && Cause(c, call).None?
    requires commit.CommitCall? && Closes(last) && last != Refused(CreditRequired)
    requires last.Refused? ==> last.failure == Reason(c, call)
    ensures Explained(c, call, [ReserveCall(true), commit, last]) && Reasoned(c, call, [ReserveCall(true), commit, last])
  {
    hide Cause, Reason;
    var events := [ReserveCall(true), commit, last];
    assert forall e | e in events :: e == events[0] || e == events[1] || e == events[2];
  }

  /**
   The response that reaches the client is the handler's whole output, under the headers that
   may leave; it reaches the client exactly when the response fits its limits and the decision
   that its kind calls for went through; the commit carries the digest and the length of that
   output.
   */
  ghost predicate Faithful(c: Config, call: Call, events: seq<Event>) {
    && (ReserveCall(true) in events <==> call.admissible && call.reserve.Reserved?)
    && (forall e | e in events && e.Answered? ::
          && e.body == Written(call.ops) && |e.body| <= BodyLimitOf(c, call)
          && e.status == Response(call).status
          && Delivered(e.headers, call.headers, SnapshotOf(Response(call)), c.spelling))
    && (forall e | e in events && e.CommitCall? ::
          e.digest == c.digest(Written(call.ops)) && e.length == |Written(call.ops)|)
    && ((exists e :: e in events && e.CommitCall?) <==>
          Ready(c, call) && call.chargeable(Response(call).status, SnapshotOf(Response(call)), Written(call.ops)))
    && ((exists e :: e in events && e.Answered?) <==>
          Ready(c, call) && (if Charged(call) then call.commitOk else call.releaseOk))
  }

  lemma {:induction false} NotReady(c: Config, call: Call, events: seq<Event>)
    requires !Ready(c, call) && forall e | e in events :: !e.CommitCall? && !e.Answered?
    requires ReserveCall(true) in events <==> call.admissible && call.reserve.Reserved?
    ensures Faithful(c, call, events)
  {
    hide Ready;
  }

  lemma {:induction false} Decided(c: Config, call: Call, events: seq<Event>)
    requires Ready(c, call) && |events| == 3 && events[0] == ReserveCall(true)
    requires events[1] == (if Charged(call) then CommitCall(c.digest(Written(call.ops)), |Written(call.ops)|, call.commitOk)
                           else ReleaseCall(NotChargeable, call.releaseOk))
    requires if events[1].ok
             then && events[2].Answered? && events[2].status == Response(call).status && events[2].body == Written(call.ops)
                  && Delivered(events[2].headers, call.headers, SnapshotOf(Response(call)), c.spelling)
             else events[2].Refused?
    requires |Written(call.ops)| <= BodyLimitOf(c, call)
    ensures Faithful(c, call, events)
  {
    hide Written, Response, Deliverable, Delivered, SnapshotOf;
    assert events[0] in events && events[1] in events && events[2] in events;
    assert forall e | e in events :: e == events[0] || e == events[1] || e == events[2];
  }

  method Serve(c: Config, call: Call) returns (events: seq<Event>)
    ensures Disciplined(events) && PaidFirst(events) && Faithful(c, call, events) && Explained(c, call, events)
    ensures Reasoned(c, call, events)
  {
    hide Reasoned, Disciplined, PaidFirst, Deliverable, Delivered, PerformAll, Faithful, Explained, Charged, Written, FinishOf;
    if !call.admissible {
      events := [Refused(BillingUnavailable)];
      RefusedAlone();
      NotReady(c, call, events);
      Uncharged(c, call, events);
      return;
    }
    if !call.reserve.Reserved? {
      var failure := if call.reserve.Insufficient? then CreditRequired else LedgerUnavailable;
      Shape2(ReserveCall(false), Refused(failure));
      events := [ReserveCall(false), Refused(failure)];
      NotReady(c, call, events);
      Uncharged(c, call, events);
      return;
    }
    ReasonOf(c, call);
    hide Cause, Reason;
    var capture := new CapturedResponse(BodyLimitOf(c, call), c.maxHeader);
    capture.Play(call.ops);
    if call.panics {
      events := Release(Panicked, call.releaseOk, Refused(QueryFailed));
      NotReady(c, call, events);
      Releases(c, call, Panicked, call.releaseOk, events[2]);
      return;
    }
    if call.canceled {
      Shape3(ReleaseCall(Canceled, call.releaseOk), Refused(RequestCanceled));
      events := [ReserveCall(true), ReleaseCall(Canceled, call.releaseOk), Refused(RequestCanceled)];
      NotReady(c, call, events);
      Releases(c, call, Canceled, call.releaseOk, events[2]);
      return;
    }
    var finish := capture.Close();
    WrittenIsAll(call.ops);
    if !finish.Fine? {
      events := Release(FinishCode(finish), call.releaseOk, Refused(ResponseInvalid));
      NotReady(c, call, events);
      Releases(c, call, FinishCode(finish), call.releaseOk, events[2]);
      return;
    }
    FitsBody(Response(call), BodyLimitOf(c, call), c.maxHeader);
    StatusHasSnapshot(call.ops);
    events := Decide(c, call, capture.status, capture.snapshot.value, capture.body);
    Decided(c, call, events);
    assert events == [ReserveCall(true), events[1], events[2]];
    if Charged(call) {
      Commits(c, call, events[1], events[2]);
    } else {
      Releases(c, call, NotChargeable, call.releaseOk, events[2]);
    }
  }

  /** The decision on a response that can be delivered. */
  method Decide(c: Config, call: Call, status: int, headers: Headers, body: Bytes) returns (events: seq<Event>)
    requires status == Response(call).status && headers == SnapshotOf(Response(call)) && body == Written(call.ops)
    ensures Disciplined(events) && PaidFirst(events)
    ensures |events| == 3 && events[0] == ReserveCall(true)
    ensures events[1] == (if Charged(call) then CommitCall(c.digest(body), |body|, call.commitOk) else ReleaseCall(NotChargeable, call.releaseOk))
    ensures if events[1].ok
            then events[2].Answered? && events[2] == Answered(status, events[2].headers, body)
                 && Delivered(events[2].headers, call.headers, headers, c.spelling)
            else events[2] == Refused(if Charged(call) then CommitUnknown else LedgerUnavailable)
  {
    hide Disciplined, PaidFirst, Response, Written, Delivered;
    var released := ReleaseHeaders(call.headers, headers, c.spelling);
    var answer := Answered(status, released, body);
    if !call.chargeable(status, headers, body) {
      events := Release(NotChargeable, call.releaseOk, answer);
      return;
    }
    var commit := CommitCall(c.digest(body), |body|, call.commitOk);
    var last := if call.commitOk then answer else Refused(CommitUnknown);
    Shape3(commit, last);
    events := [ReserveCall(true), commit, last];
  }

  /** A release attempt; when it fails the client learns that the ledger is unavailable. */
  method Release(code: ReleaseCode, ok: bool, answer: Event) returns (events: seq<Event>)
    requires Closes(answer) && (answer.Answered? ==> code.NotChargeable?)
    ensures Disciplined(events) && PaidFirst(events)
    ensures events == [ReserveCall(true), ReleaseCall(code, ok), if ok then answer else Refused(LedgerUnavailable)]
  {
    var last := if ok then answer else Refused(LedgerUnavailable);
    Shape3(ReleaseCall(code, ok), last);
    events := [ReserveCall(true), ReleaseCall(code, ok), last];
  }

  lemma {:induction false} RefusedAlone()
    ensures Disciplined([Refused(BillingUnavailable)]) && PaidFirst([Refused(BillingUnavailable)])
  {
    var e := Refused(BillingUnavailable);
    CountThree(e, e, e, Closes);
    CountThree(e, e, e, Decides);
  }

  lemma {:induction false} FitsBody(s: Sheet, maxBody: int, maxHeader: int)
    requires Deliverable(s, maxBody, maxHeader)
    ensures |s.written| <= maxBody
  {
  }

  lemma {:induction false} StatusHasSnapshot(ops: seq<HandlerOp>)
    ensures PerformAll(BLANK, ops).status != 0 ==> PerformAll(BLANK, ops).snapshot.Some?
  {
    if ops != [] {
      StatusHasSnapshot(ops[..|ops| - 1]);
    }
  }

  /** The cause of a release, by the first thing that went wrong with the response. */
  lemma {:induction false} CauseInWords(c: Config, call: Call)
    requires !call.panics && !call.canceled
    ensures var s := Response(call);
            var tooMuch := HeaderBytes(s.header) > c.maxHeader || (s.snapshot.Some? && HeaderBytes(s.snapshot.value) > c.maxHeader);
            && (s.streamed ==> Cause(c, call) == Some(StreamingUnsupported))
            && (!s.streamed && tooMuch ==> Cause(c, call) == Some(HeadersTooLarge))
            && (!s.streamed && !tooMuch && |s.written| > BodyLimitOf(c, call) ==> Cause(c, call) == Some(BodyTooLarge))
            && (!s.streamed && !tooMuch && |s.written| <= BodyLimitOf(c, call) ==> Cause(c, call).None? || Cause(c, call) == Some(NotChargeable))
  {
    hide HeaderBytes, PerformAll;
  }
}
