/**
 The tables behind a top-up: payments, intents, accounts and account entries, with every
 statement that changes them. Some statements update the payment before they look at the
 intent; the invariant shows that such a statement never stops halfway.
 */
module TopupLedger {
  import opened Prelude
  import opened PaymentLog

  /** The failure mark of a payment that is settling. */
  datatype Mark = Clear | Unknown | Pending

  /** A payment row, kept under its fingerprint. */
  datatype Pay = Pay(owner: nat, intent: nat, state: State, mark: Mark, hash: Option<nat>)

  datatype Phase = Open | Processing | Submitted | Credited | Lost | Lapsed

  datatype Intent = Intent(
    user: nat, credit: nat, payer: nat, network: nat, phase: Phase, active: Option<nat>, submission: Option<nat>)

  datatype Entry = Entry(user: nat, amount: nat, source: nat)

  datatype Ledger = Ledger(
    pays: map<nat, Pay>, intents: map<nat, Intent>, accounts: map<nat, nat>, entries: seq<Entry>)

  /** `late` tells whether the intent's own deadline has passed. */
  datatype Op =
    | Reserve(intent: nat, payer: nat)
    | MarkVerified
    | Begin(intent: nat)
    | FailPayment(intent: nat, late: bool)
    | MarkUnknown(intent: nat)
    | MarkPending(intent: nat, hash: nat)
    | FailSettlement(intent: nat, late: bool)
    | Credit(hash: nat)
    | Observe(intent: nat, seen: Option<nat>)
    | OperatorSettle(hash: nat)
    | OperatorFail
    | Expire(late: bool)

  datatype Outcome = Outcome(ledger: Ledger, ok: bool)

  predicate Owned(l: Ledger, fp: nat, owner: nat) {
    fp in l.pays && l.pays[fp].owner == owner
  }

  /** The payment's intent points back at it and is in the given phase. */
  predicate Bound(l: Ledger, fp: nat, phase: Phase)
    requires fp in l.pays
  {
    var i := l.pays[fp].intent;
    i in l.intents && l.intents[i].phase == phase && l.intents[i].active == Some(fp)
  }

  predicate Agrees(l: Ledger, i: nat, hash: Option<nat>)
    requires i in l.intents
  {
    l.intents[i].submission.None? || l.intents[i].submission == hash
  }

  function Put(l: Ledger, fp: nat, pay: Pay): Ledger {
    l.(pays := l.pays[fp := pay])
  }

  /** Writes a payment together with its intent. */
  function Move(l: Ledger, fp: nat, pay: Pay, intent: Intent): Ledger {
    l.(pays := l.pays[fp := pay], intents := l.intents[pay.intent := intent])
  }

  function Reopened(it: Intent, late: bool): Intent {
    it.(phase := if late then Lapsed else Open, active := None, submission := None)
  }

  /** Adds the credit of a settled payment to its account. */
  function CreditAccount(l: Ledger, fp: nat): Ledger
    requires fp in l.pays && l.pays[fp].intent in l.intents
    requires l.intents[l.pays[fp].intent].user in l.accounts
  {
    var it := l.intents[l.pays[fp].intent];
    l.(accounts := l.accounts[it.user := l.accounts[it.user] + it.credit],
       entries := l.entries + [Entry(it.user, it.credit, fp)])
  }

  function Exec(l: Ledger, fp: nat, owner: nat, op: Op): Outcome {
    match op
    case Reserve(i, payer) =>
      if fp !in l.pays && i in l.intents && l.intents[i].phase.Open? && l.intents[i].payer == payer
      then Outcome(Move(l, fp, Pay(owner, i, Reserved, Clear, None),
                        l.intents[i].(phase := Processing, active := Some(fp), submission := None)), true)
      else Outcome(l, false)
    case MarkVerified =>
      if Owned(l, fp, owner) && l.pays[fp].state.Reserved?
      then Outcome(Put(l, fp, l.pays[fp].(state := Verified)), true)
      else Outcome(l, false)
    case Begin(i) =>
      if Owned(l, fp, owner) && l.pays[fp].intent == i && l.pays[fp].state.Verified? && Bound(l, fp, Processing)
      then Outcome(Move(l, fp, l.pays[fp].(state := Settling), l.intents[i].(phase := Submitted)), true)
      else Outcome(l, false)
    case FailPayment(i, late) =>
      if Owned(l, fp, owner) && l.pays[fp].intent == i && (l.pays[fp].state.Reserved? || l.pays[fp].state.Verified?)
      then if Bound(l, fp, Processing)
           then Outcome(Move(l, fp, l.pays[fp].(state := Failed), Reopened(l.intents[i], late)), true)
           else Outcome(Put(l, fp, l.pays[fp].(state := Failed)), false)
      else Outcome(l, false)
    case MarkUnknown(i) =>
      if Owned(l, fp, owner) && l.pays[fp].intent == i && l.pays[fp].state.Settling? && l.pays[fp].mark.Clear?
      then Outcome(Put(l, fp, l.pays[fp].(mark := Unknown)), Bound(l, fp, Submitted))
      else Outcome(l, false)
    case MarkPending(i, h) =>
      if h != 0 && Owned(l, fp, owner) && l.pays[fp].intent == i && l.pays[fp].state.Settling? && l.pays[fp].mark.Clear?
         && l.pays[fp].hash.None? && i in l.intents && Agrees(l, i, Some(h))
      then Outcome(Put(l, fp, l.pays[fp].(mark := Pending, hash := Some(h))), Bound(l, fp, Submitted))
      else Outcome(l, false)
    case FailSettlement(i, late) =>
      if Owned(l, fp, owner) && l.pays[fp].intent == i && l.pays[fp].state.Settling? && l.pays[fp].mark.Clear?
         && l.pays[fp].hash.None?
      then if Bound(l, fp, Submitted)
           then Outcome(Move(l, fp, l.pays[fp].(state := Failed), Reopened(l.intents[i], late)), true)
           else Outcome(Put(l, fp, l.pays[fp].(state := Failed)), false)
      else Outcome(l, false)
    case Credit(h) =>
      if h != 0 && Owned(l, fp, owner) && l.pays[fp].state.Settling? && l.pays[fp].mark.Clear?
         && Bound(l, fp, Submitted) && Agrees(l, l.pays[fp].intent, Some(h))
      then var m := Settle(l, fp, h);
           if l.intents[l.pays[fp].intent].user in l.accounts then Outcome(CreditAccount(m, fp), true) else Outcome(m, false)
      else Outcome(l, false)
    case Observe(i, seen) =>
      if Owned(l, fp, owner) && l.pays[fp].intent == i && l.pays[fp].state.Settling? && l.pays[fp].mark.Clear?
         && Bound(l, fp, Submitted) && seen != Some(0) && Agrees(l, i, seen)
      then Outcome(Move(l, fp, l.pays[fp],
                        l.intents[i].(submission := if l.intents[i].submission.Some? then l.intents[i].submission else seen)), true)
      else Outcome(l, false)
    case OperatorSettle(h) =>
      if h != 0 && fp in l.pays && l.pays[fp].state.Settling? && (l.pays[fp].hash.None? || l.pays[fp].hash == Some(h))
         && Bound(l, fp, Submitted) && Agrees(l, l.pays[fp].intent, Some(h))
         && l.intents[l.pays[fp].intent].user in l.accounts
      then Outcome(CreditAccount(Settle(l, fp, h), fp), true)
      else Outcome(l, false)
    case OperatorFail =>
      if fp in l.pays && l.pays[fp].state.Settling? && Bound(l, fp, Submitted)
      then Outcome(Move(l, fp, l.pays[fp].(state := Failed), l.intents[l.pays[fp].intent].(phase := Lost)), true)
      else Outcome(l, false)
    case Expire(late) =>
      if fp in l.pays && (l.pays[fp].state.Reserved? || l.pays[fp].state.Verified?) && Bound(l, fp, Processing)
      then Outcome(Move(l, fp, l.pays[fp].(state := Expired), Reopened(l.intents[l.pays[fp].intent], late)), true)
      else Outcome(l, false)
  }

  function Settle(l: Ledger, fp: nat, h: nat): Ledger
    requires fp in l.pays && l.pays[fp].intent in l.intents
  {
    Move(l, fp, l.pays[fp].(state := Settled, hash := Some(h), mark := Clear), l.intents[l.pays[fp].intent].(phase := Credited))
  }

  /** The intent is created after its user's account exists. */
  function NewIntent(l: Ledger, i: nat, user: nat, credit: nat, payer: nat, network: nat): Ledger {
    var accounts := if user in l.accounts then l.accounts else l.accounts[user := 0];
    l.(accounts := accounts, intents := l.intents[i := Intent(user, credit, payer, network, Open, None, None)])
  }

  function LapseIntent(l: Ledger, i: nat): Ledger {
    if i in l.intents && l.intents[i].phase.Open?
    then l.(intents := l.intents[i := l.intents[i].(phase := Lapsed)])
    else l
  }

  // ----- the invariant

  /** The phase of an intent that a payment in this state holds. */
  predicate Coupled(s: State, phase: Phase) {
    match phase
    case Open => false
    case Processing => s.Reserved? || s.Verified?
    case Submitted => s.Settling?
    case Credited => s.Settled?
    case Lost => s.Failed?
    case Lapsed => false
  }

  /** A payment that is not closed holds its intent. */
  ghost predicate PayOk(l: Ledger, fp: nat)
    requires fp in l.pays
  {
    var p := l.pays[fp];
    && p.intent in l.intents
    && (!p.state.Failed? && !p.state.Expired? ==>
          l.intents[p.intent].active == Some(fp) && Coupled(p.state, l.intents[p.intent].phase))
  }

  /** An intent that is not payable is held by one payment of its own. */
  ghost predicate IntentOk(l: Ledger, i: nat)
    requires i in l.intents
  {
    var it := l.intents[i];
    && it.user in l.accounts
    && (it.active.None? <==> it.phase.Open? || it.phase.Lapsed?)
    && (it.active.Some? ==>
          it.active.value in l.pays && l.pays[it.active.value].intent == i && Coupled(l.pays[it.active.value].state, it.phase))
  }

  ghost predicate Linked(l: Ledger) {
    (forall fp | fp in l.pays :: PayOk(l, fp)) && (forall i | i in l.intents :: IntentOk(l, i))
  }

  /** Entries are exactly the settled payments, each once, for the credit of its intent. */
  ghost predicate EntryOk(l: Ledger, e: Entry) {
    && e.source in l.pays && l.pays[e.source].state.Settled? && l.pays[e.source].intent in l.intents
    && l.intents[l.pays[e.source].intent].user == e.user && l.intents[l.pays[e.source].intent].credit == e.amount
  }

  ghost predicate HasEntry(entries: seq<Entry>, fp: nat) {
    exists k | 0 <= k < |entries| :: entries[k].source == fp
  }

  ghost predicate Recorded(l: Ledger) {
    && (forall k | 0 <= k < |l.entries| :: EntryOk(l, l.entries[k]))
    && (forall k, m | 0 <= k < m < |l.entries| :: l.entries[k].source != l.entries[m].source)
    && (forall fp | fp in l.pays && l.pays[fp].state.Settled? :: HasEntry(l.entries, fp))
  }

  function Total(entries: seq<Entry>, user: nat): nat {
    if entries == [] then 0
    else Total(entries[..|entries| - 1], user)
         + if entries[|entries| - 1].user == user then entries[|entries| - 1].amount else 0
  }

  ghost predicate Balanced(l: Ledger) {
    forall u | u in l.accounts :: l.accounts[u] == Total(l.entries, u)
  }

  ghost predicate LedgerInv(l: Ledger) {
    Linked(l) && Recorded(l) && Balanced(l)
  }

  /** Writing a payment with the intent it holds, or claims, keeps the links. */
  lemma {:induction false} MoveLinked(l: Ledger, fp: nat, pay: Pay, intent: Intent)
    requires Linked(l) && pay.intent in l.intents
    requires var it := l.intents[pay.intent];
             || (fp in l.pays && l.pays[fp].intent == pay.intent && it.active == Some(fp))
             || (fp !in l.pays && it.active.None?)
    requires intent.user == l.intents[pay.intent].user && intent.credit == l.intents[pay.intent].credit
    requires (intent.active.None? <==> intent.phase.Open? || intent.phase.Lapsed?)
    requires intent.active.Some? ==> intent.active == Some(fp) && Coupled(pay.state, intent.phase)
    requires intent.active.None? ==> pay.state.Failed? || pay.state.Expired?
    ensures Linked(Move(l, fp, pay, intent))
  {
    var m := Move(l, fp, pay, intent);
    forall f | f in m.pays ensures PayOk(m, f) {
      if f != fp {
        assert PayOk(l, f);
      }
    }
    forall i | i in m.intents ensures IntentOk(m, i) {
      assert IntentOk(l, i);
    }
  }

  /** Updates that settle nothing keep the books. */
  lemma {:induction false} SameBooks(l: Ledger, m: Ledger, fp: nat)
    requires Recorded(l) && Balanced(l) && m.accounts == l.accounts && m.entries == l.entries
    requires m.pays.Keys == l.pays.Keys + {fp} && m.intents.Keys == l.intents.Keys
    requires forall f | f in l.pays && f != fp :: m.pays[f] == l.pays[f]
    requires forall k | k in l.intents :: m.intents[k].user == l.intents[k].user && m.intents[k].credit == l.intents[k].credit
    requires fp in l.pays ==> !l.pays[fp].state.Settled?
    requires !m.pays[fp].state.Settled?
    ensures Recorded(m) && Balanced(m)
  {
    hide Total;
    forall k | 0 <= k < |m.entries| ensures EntryOk(m, m.entries[k]) {
      assert EntryOk(l, l.entries[k]);
    }
  }

  lemma {:induction false} Entered(l: Ledger, fp: nat)
    requires Linked(l) && fp in l.pays
    ensures PayOk(l, fp) && l.pays[fp].intent in l.intents && IntentOk(l, l.pays[fp].intent)
  {
  }

  /** Settling pays the account once. */
  lemma {:induction false} SettleKeeps(l: Ledger, fp: nat, h: nat)
    requires LedgerInv(l) && fp in l.pays && l.pays[fp].state.Settling? && Bound(l, fp, Submitted)
    ensures l.intents[l.pays[fp].intent].user in l.accounts
    ensures LedgerInv(CreditAccount(Settle(l, fp, h), fp))
  {
    hide Total, Recorded, Linked;
    Entered(l, fp);
    var m := Settle(l, fp, h);
    MoveLinked(l, fp, m.pays[fp], m.intents[l.pays[fp].intent]);
    var n := CreditAccount(m, fp);
    SettleLinked(m, n);
    SettleRecorded(l, fp, h);
    SettleBalanced(l, fp, h);
  }

  lemma {:induction false} SettleLinked(m: Ledger, n: Ledger)
    requires Linked(m) && n.pays == m.pays && n.intents == m.intents && n.accounts.Keys == m.accounts.Keys
    ensures Linked(n)
  {
    forall f | f in n.pays ensures PayOk(n, f) {
      assert PayOk(m, f);
    }
    forall i | i in n.intents ensures IntentOk(n, i) {
      assert IntentOk(m, i);
    }
  }

  lemma {:induction false} SettleRecorded(l: Ledger, fp: nat, h: nat)
    requires Recorded(l) && fp in l.pays && l.pays[fp].state.Settling? && l.pays[fp].intent in l.intents
    requires l.intents[l.pays[fp].intent].user in l.accounts
    ensures Recorded(CreditAccount(Settle(l, fp, h), fp))
  {
    var n := CreditAccount(Settle(l, fp, h), fp);
    var last := |l.entries|;
    forall k | 0 <= k < |n.entries| ensures EntryOk(n, n.entries[k]) {
      if k < last {
        assert EntryOk(l, l.entries[k]);
      }
    }
    forall k, m | 0 <= k < m < |n.entries| ensures n.entries[k].source != n.entries[m].source {
      if m == last {
        assert EntryOk(l, l.entries[k]);
      }
    }
    forall f | f in n.pays && n.pays[f].state.Settled? ensures HasEntry(n.entries, f) {
      if f == fp {
        assert n.entries[last].source == fp;
      } else {
        assert HasEntry(l.entries, f);
        var k :| 0 <= k < |l.entries| && l.entries[k].source == f;
        assert n.entries[k].source == f;
      }
    }
  }

  lemma {:induction false} SettleBalanced(l: Ledger, fp: nat, h: nat)
    requires Balanced(l) && fp in l.pays && l.pays[fp].intent in l.intents
    requires l.intents[l.pays[fp].intent].user in l.accounts
    ensures Balanced(CreditAccount(Settle(l, fp, h), fp))
  {
    var n := CreditAccount(Settle(l, fp, h), fp);
    assert n.entries[..|n.entries| - 1] == l.entries;
  }

  lemma {:induction false} MoveKeeps(l: Ledger, fp: nat, pay: Pay, intent: Intent)
    requires LedgerInv(l) && pay.intent in l.intents && !pay.state.Settled?
    requires fp in l.pays ==> !l.pays[fp].state.Settled?
    requires var it := l.intents[pay.intent];
             || (fp in l.pays && l.pays[fp].intent == pay.intent && it.active == Some(fp))
             || (fp !in l.pays && it.active.None?)
    requires intent.user == l.intents[pay.intent].user && intent.credit == l.intents[pay.intent].credit
    requires (intent.active.None? <==> intent.phase.Open? || intent.phase.Lapsed?)
    requires intent.active.Some? ==> intent.active == Some(fp) && Coupled(pay.state, intent.phase)
    requires intent.active.None? ==> pay.state.Failed? || pay.state.Expired?
    ensures LedgerInv(Move(l, fp, pay, intent))
  {
    hide Linked, Recorded, Balanced;
    MoveLinked(l, fp, pay, intent);
    SameBooks(l, Move(l, fp, pay, intent), fp);
  }

  lemma {:induction false} PutKeeps(l: Ledger, fp: nat, pay: Pay)
    requires LedgerInv(l) && fp in l.pays && pay.intent == l.pays[fp].intent
    requires l.pays[fp].intent in l.intents
    requires !l.pays[fp].state.Failed? && !l.pays[fp].state.Expired? && !l.pays[fp].state.Settled? && !pay.state.Settled?
    requires Coupled(pay.state, l.intents[l.pays[fp].intent].phase)
    ensures LedgerInv(Put(l, fp, pay))
  {
    hide Recorded, Balanced, Linked;
    Entered(l, fp);
    MoveKeeps(l, fp, pay, l.intents[pay.intent]);
    assert Move(l, fp, pay, l.intents[pay.intent]) == Put(l, fp, pay);
  }

  /** A statement of the dispatcher, the operator or the sweeper keeps the invariant. */
  lemma {:induction false} ExecKeeps(l: Ledger, fp: nat, owner: nat, op: Op)
    requires LedgerInv(l)
    ensures LedgerInv(Exec(l, fp, owner, op).ledger)
  {
    hide LedgerInv, PayOk, IntentOk;
    if fp in l.pays {
      Holds(l, fp);
    }
    match op {
      case Reserve(i, payer) =>
        if Exec(l, fp, owner, op).ok {
          OpenIsFree(l, i);
          MoveKeeps(l, fp, Pay(owner, i, Reserved, Clear, None),
                    l.intents[i].(phase := Processing, active := Some(fp), submission := None));
        }
      case MarkVerified =>
        if Exec(l, fp, owner, op).ok {
          PutKeeps(l, fp, l.pays[fp].(state := Verified));
        }
      case Begin(i) =>
        if Exec(l, fp, owner, op).ok {
          MoveKeeps(l, fp, l.pays[fp].(state := Settling), l.intents[i].(phase := Submitted));
        }
      case FailPayment(i, late) =>
        if Exec(l, fp, owner, op).ok {
          MoveKeeps(l, fp, l.pays[fp].(state := Failed), Reopened(l.intents[i], late));
        }
      case MarkUnknown(i) =>
        if Exec(l, fp, owner, op).ok {
          PutKeeps(l, fp, l.pays[fp].(mark := Unknown));
        }
      case MarkPending(i, h) =>
        if Exec(l, fp, owner, op).ok {
          PutKeeps(l, fp, l.pays[fp].(mark := Pending, hash := Some(h)));
        }
      case FailSettlement(i, late) =>
        if Exec(l, fp, owner, op).ok {
          MoveKeeps(l, fp, l.pays[fp].(state := Failed), Reopened(l.intents[i], late));
        }
      case Credit(h) =>
        if fp in l.pays && l.pays[fp].state.Settling? {
          SettleKeeps(l, fp, h);
        }
      case Observe(i, seen) =>
        if Exec(l, fp, owner, op).ok {
          MoveKeeps(l, fp, l.pays[fp],
                    l.intents[i].(submission := if l.intents[i].submission.Some? then l.intents[i].submission else seen));
        }
      case OperatorSettle(h) =>
        if fp in l.pays && l.pays[fp].state.Settling? {
          SettleKeeps(l, fp, h);
        }
      case OperatorFail =>
        if Exec(l, fp, owner, op).ok {
          MoveKeeps(l, fp, l.pays[fp].(state := Failed), l.intents[l.pays[fp].intent].(phase := Lost));
        }
      case Expire(late) =>
        if Exec(l, fp, owner, op).ok {
          MoveKeeps(l, fp, l.pays[fp].(state := Expired), Reopened(l.intents[l.pays[fp].intent], late));
        }
    }
  }

  lemma {:induction false} OpenIsFree(l: Ledger, i: nat)
    requires LedgerInv(l) && i in l.intents
    ensures l.intents[i].active.None? <==> l.intents[i].phase.Open? || l.intents[i].phase.Lapsed?
  {
    hide Recorded, Balanced;
    assert IntentOk(l, i);
  }

  /** An unclosed payment holds its intent in the phase that fits. */
  lemma {:induction false} Holds(l: Ledger, fp: nat)
    requires LedgerInv(l) && fp in l.pays
    ensures l.pays[fp].intent in l.intents
    ensures l.pays[fp].state.Reserved? || l.pays[fp].state.Verified? ==> Bound(l, fp, Processing)
    ensures l.pays[fp].state.Settling? ==> Bound(l, fp, Submitted)
    ensures l.pays[fp].state.Settled? ==> Bound(l, fp, Credited)
    ensures l.intents[l.pays[fp].intent].user in l.accounts
  {
    hide Recorded, Balanced;
    assert PayOk(l, fp);
    assert IntentOk(l, l.pays[fp].intent);
  }

  /** Under the invariant a statement that reports no row has changed nothing. */
  lemma {:induction false} AllOrNothing(l: Ledger, fp: nat, owner: nat, op: Op)
    requires LedgerInv(l) && !Exec(l, fp, owner, op).ok
    ensures Exec(l, fp, owner, op).ledger == l
  {
    hide LedgerInv;
    if fp in l.pays {
      Holds(l, fp);
    }
  }

  lemma {:induction false} NewIntentKeeps(l: Ledger, i: nat, user: nat, credit: nat, payer: nat, network: nat)
    requires LedgerInv(l) && i !in l.intents
    ensures LedgerInv(NewIntent(l, i, user, credit, payer, network))
  {
    var m := NewIntent(l, i, user, credit, payer, network);
    forall fp | fp in m.pays ensures PayOk(m, fp) {
      assert PayOk(l, fp);
    }
    forall j | j in m.intents ensures IntentOk(m, j) {
      if j != i {
        assert IntentOk(l, j);
      }
    }
    forall k | 0 <= k < |m.entries| ensures EntryOk(m, m.entries[k]) {
      assert EntryOk(l, l.entries[k]);
    }
    if user !in l.accounts {
      forall k | 0 <= k < |l.entries| ensures l.entries[k].user != user {
        assert EntryOk(l, l.entries[k]);
        assert IntentOk(l, l.pays[l.entries[k].source].intent);
      }
      NoEntries(l.entries, user);
    }
  }

  lemma {:induction false} NoEntries(entries: seq<Entry>, user: nat)
    requires forall k | 0 <= k < |entries| :: entries[k].user != user
    ensures Total(entries, user) == 0
  {
    if entries != [] {
      NoEntries(entries[..|entries| - 1], user);
    }
  }

  lemma {:induction false} LapseKeeps(l: Ledger, i: nat)
    requires LedgerInv(l)
    ensures LedgerInv(LapseIntent(l, i))
  {
    hide Total;
    var m := LapseIntent(l, i);
    forall fp | fp in m.pays ensures PayOk(m, fp) {
      assert PayOk(l, fp);
      if l.pays[fp].intent == i {
        assert IntentOk(l, i);
      }
    }
    forall j | j in m.intents ensures IntentOk(m, j) {
      assert IntentOk(l, j);
    }
    forall k | 0 <= k < |m.entries| ensures EntryOk(m, m.entries[k]) {
      assert EntryOk(l, l.entries[k]);
    }
  }

  // ----- what the invariant means for the books

  /** A credited intent has exactly one entry, for its own amount, from the payment that holds it. */
  lemma {:induction false} CreditedOnce(l: Ledger, i: nat) returns (k: nat)
    requires LedgerInv(l) && i in l.intents && l.intents[i].phase.Credited?
    ensures k < |l.entries| && l.intents[i].active == Some(l.entries[k].source)
    ensures l.entries[k].amount == l.intents[i].credit && l.entries[k].user == l.intents[i].user
    ensures forall m | 0 <= m < |l.entries| && l.entries[m].source in l.pays && l.pays[l.entries[m].source].intent == i :: m == k
  {
    hide Total;
    assert IntentOk(l, i);
    var fp := l.intents[i].active.value;
    assert HasEntry(l.entries, fp);
    k :| 0 <= k < |l.entries| && l.entries[k].source == fp;
    assert EntryOk(l, l.entries[k]);
    forall m | 0 <= m < |l.entries| && l.entries[m].source in l.pays && l.pays[l.entries[m].source].intent == i ensures m == k {
      assert EntryOk(l, l.entries[m]);
      assert PayOk(l, l.entries[m].source);
    }
  }

  /** An intent that is not credited has added nothing to any account. */
  lemma {:induction false} UncreditedHasNoEntry(l: Ledger, i: nat, k: nat)
    requires LedgerInv(l) && i in l.intents && !l.intents[i].phase.Credited? && k < |l.entries|
    ensures l.entries[k].source in l.pays && l.pays[l.entries[k].source].intent != i
  {
    hide Total;
    assert EntryOk(l, l.entries[k]);
    assert PayOk(l, l.entries[k].source);
  }

  // ----- what a caller sees afterwards

  /**
   A payment that fails or expires gives its intent back: whoever comes next with a new payment of
   the right payer can reserve it exactly when the intent's deadline has not passed.
   */
  lemma {:induction false} ReopensExactly(l: Ledger, fp: nat, owner: nat, op: Op, g: nat, o: nat)
    requires LedgerInv(l) && (op.FailPayment? || op.FailSettlement? || op.Expire?)
    requires Exec(l, fp, owner, op).ok && g !in l.pays
    ensures fp in l.pays && l.pays[fp].intent in l.intents
    ensures var i, after := l.pays[fp].intent, Exec(l, fp, owner, op).ledger;
            && (Exec(after, g, o, Reserve(i, l.intents[i].payer)).ok <==> !op.late)
            && fp in after.pays && (after.pays[fp].state.Failed? || after.pays[fp].state.Expired?)
  {
    hide LedgerInv;
  }

  /** A reservation is for an open intent, its own payer and a new fingerprint, and closes the intent to others. */
  lemma {:induction false} ReservesOnce(l: Ledger, fp: nat, owner: nat, i: nat, payer: nat, g: nat, o: nat)
    requires LedgerInv(l) && Exec(l, fp, owner, Reserve(i, payer)).ok
    ensures i in l.intents && l.intents[i].payer == payer && fp !in l.pays
    ensures var after := Exec(l, fp, owner, Reserve(i, payer)).ledger;
            && !Exec(after, g, o, Reserve(i, payer)).ok
            && Exec(after, fp, owner, MarkVerified).ok
            && Exec(Exec(after, fp, owner, MarkVerified).ledger, fp, owner, Begin(i)).ok
            && (o != owner ==> !Exec(after, fp, o, MarkVerified).ok)
  {
    hide LedgerInv;
  }

  predicate ByOperator(op: Op) {
    op.OperatorSettle? || op.OperatorFail?
  }

  /** While a settlement is marked unknown or pending, only an operator can decide it, and with a transaction that agrees. */
  lemma {:induction false} DoubtIsForOperators(l: Ledger, fp: nat, owner: nat, op: Op)
    requires LedgerInv(l) && fp in l.pays && l.pays[fp].state.Settling? && !l.pays[fp].mark.Clear?
    ensures !ByOperator(op) ==> Exec(l, fp, owner, op) == Outcome(l, false)
    ensures op.OperatorFail? ==> Exec(l, fp, owner, op).ok && Exec(l, fp, owner, op).ledger.pays[fp].state.Failed?
    ensures op.OperatorSettle? ==>
              && l.pays[fp].intent in l.intents
              && (Exec(l, fp, owner, op).ok <==>
                    && op.hash != 0 && (l.pays[fp].hash.None? || l.pays[fp].hash == Some(op.hash))
                    && (var seen := l.intents[l.pays[fp].intent].submission; seen.None? || seen == Some(op.hash)))
              && (Exec(l, fp, owner, op).ok ==> Exec(l, fp, owner, op).ledger.pays[fp].hash == Some(op.hash))
  {
    hide LedgerInv, Settle;
    Holds(l, fp);
    if op.OperatorSettle? {
      SettleFacts(l, fp, op.hash);
    }
  }

  lemma {:induction false} SettleFacts(l: Ledger, fp: nat, h: nat)
    requires fp in l.pays && l.pays[fp].intent in l.intents
    ensures var m := Settle(l, fp, h);
            && fp in m.pays && m.pays[fp].hash == Some(h) && m.pays[fp].state.Settled? && m.pays[fp].intent == l.pays[fp].intent
            && m.accounts == l.accounts && m.intents.Keys == l.intents.Keys
            && m.intents[l.pays[fp].intent].user == l.intents[l.pays[fp].intent].user
  {
  }

  /** The marks say which: unknown leaves the transaction open, pending fixes it. */
  lemma {:induction false} MarksAreStored(l: Ledger, fp: nat, owner: nat, op: Op)
    requires LedgerInv(l) && Exec(l, fp, owner, op).ok && (op.MarkUnknown? || op.MarkPending?)
    ensures var pay := Exec(l, fp, owner, op).ledger.pays[fp];
            && pay.state.Settling?
            && (op.MarkUnknown? ==> pay.mark.Unknown? && pay.hash == l.pays[fp].hash)
            && (op.MarkPending? ==> pay.mark.Pending? && pay.hash == Some(op.hash) && op.hash != 0)
  {
    hide LedgerInv;
  }

  /** Credited and lost intents never change again. */
  lemma {:induction false} TerminalStays(l: Ledger, fp: nat, owner: nat, op: Op, i: nat)
    requires LedgerInv(l) && i in l.intents && (l.intents[i].phase.Credited? || l.intents[i].phase.Lost?)
    ensures i in Exec(l, fp, owner, op).ledger.intents && Exec(l, fp, owner, op).ledger.intents[i] == l.intents[i]
  {
    hide LedgerInv;
    if fp in l.pays {
      Holds(l, fp);
    }
  }

  /** A lapsed intent cannot be paid; lapsing touches only open ones. */
  lemma {:induction false} LapsedIsClosed(l: Ledger, i: nat, g: nat, o: nat, payer: nat)
    ensures !Exec(LapseIntent(l, i), g, o, Reserve(i, payer)).ok
    ensures forall j | j in l.intents && (j != i || !l.intents[j].phase.Open?) :: LapseIntent(l, i).intents[j] == l.intents[j]
  {
  }

  /** A new intent can be paid by its payer, for its credit to its user. */
  lemma {:induction false} NewIntentIsOpen(l: Ledger, i: nat, user: nat, credit: nat, payer: nat, network: nat, g: nat, o: nat, p: nat)
    requires i !in l.intents && g !in l.pays
    ensures var m := NewIntent(l, i, user, credit, payer, network);
            && (Exec(m, g, o, Reserve(i, p)).ok <==> p == payer)
            && m.intents[i].user == user && m.intents[i].credit == credit
            && forall u | u in l.accounts :: m.accounts[u] == l.accounts[u]
  {
  }

  // ----- transactions

  /** A settled payment names a transaction, and the one that was observed if any was. */
  ghost predicate Traced(l: Ledger) {
    forall fp | fp in l.pays && l.pays[fp].state.Settled? ::
      && l.pays[fp].hash.Some? && l.pays[fp].hash.value != 0
      && l.pays[fp].intent in l.intents && Agrees(l, l.pays[fp].intent, l.pays[fp].hash)
  }

  lemma {:induction false} SettleTraced(l: Ledger, fp: nat, h: nat)
    requires LedgerInv(l) && Traced(l) && fp in l.pays && l.pays[fp].state.Settling? && h != 0
    requires l.pays[fp].intent in l.intents && Agrees(l, l.pays[fp].intent, Some(h))
    requires l.intents[l.pays[fp].intent].user in l.accounts
    ensures Traced(CreditAccount(Settle(l, fp, h), fp))
  {
    hide LedgerInv;
    forall f | f in l.pays && f != fp && l.pays[f].state.Settled? ensures l.pays[f].intent != l.pays[fp].intent {
      Holds(l, f);
      Holds(l, fp);
    }
  }

  lemma {:induction false} ExecTraced(l: Ledger, fp: nat, owner: nat, op: Op)
    requires LedgerInv(l) && Traced(l)
    ensures Traced(Exec(l, fp, owner, op).ledger)
  {
    hide LedgerInv, Settle, CreditAccount;
    if fp in l.pays {
      Holds(l, fp);
    }
    if op.Credit? || op.OperatorSettle? {
      if fp in l.pays && l.pays[fp].state.Settling? && op.hash != 0 && Agrees(l, l.pays[fp].intent, Some(op.hash)) {
        SettleTraced(l, fp, op.hash);
        SettleFacts(l, fp, op.hash);
      }
    } else {
      forall f | f in l.pays && l.pays[f].state.Settled? ensures Bound(l, f, Credited) {
        Holds(l, f);
      }
      OthersTraced(l, fp, owner, op);
    }
  }

  lemma {:induction false} OthersTraced(l: Ledger, fp: nat, owner: nat, op: Op)
    requires Traced(l) && !op.Credit? && !op.OperatorSettle?
    requires forall f | f in l.pays && l.pays[f].state.Settled? :: Bound(l, f, Credited)
    ensures Traced(Exec(l, fp, owner, op).ledger)
  {
    var m := Exec(l, fp, owner, op).ledger;
    forall f | f in m.pays && m.pays[f].state.Settled?
      ensures m.pays[f].hash.Some? && m.pays[f].hash.value != 0 && m.pays[f].intent in m.intents && Agrees(m, m.pays[f].intent, m.pays[f].hash)
    {
      assert f in l.pays && l.pays[f].state.Settled?;
    }
  }
}
