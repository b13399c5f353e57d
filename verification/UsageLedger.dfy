/**
 The prepaid accounts under concurrent metered calls: accounts are opened, and reservations,
 commits, releases, expiry sweeps, top-ups and adjustments are each one atomic statement.
 */
module UsageLedger {
  import opened Prelude

  datatype ChargeState = Held | Committed | Released | Expired

  datatype Charge = Charge(user: nat, owner: nat, amount: nat, state: ChargeState)

  datatype Account = Account(credit: int, debit: int, held: int)

  datatype Entry = Entry(user: nat, debit: bool, amount: nat, charge: Option<nat>)

  datatype Books = Books(accounts: map<nat, Account>, charges: seq<Charge>, entries: seq<Entry>)

  /** A credit `Adjust` is an adjustment or the credit of a top-up. */
  datatype Op =
    | EnsureAccount(user: nat, active: bool)
    | ReserveUsage(user: nat, owner: nat, amount: nat)
    | CommitUsage(id: nat, owner: nat, unexpired: bool)
    | ReleaseUsage(id: nat, owner: nat)
    | ExpireReservations(due: set<nat>)
    | Adjust(user: nat, debit: bool, amount: nat)

  function Available(a: Account): int {
    a.credit - a.debit - a.held
  }

  /** The amounts of one user's charges in `state`. */
  function Sum(charges: seq<Charge>, user: nat, state: ChargeState): int {
    if charges == [] then 0
    else Sum(charges[..|charges| - 1], user, state)
         + if charges[|charges| - 1].user == user && charges[|charges| - 1].state == state then charges[|charges| - 1].amount else 0
  }

  function Due(charges: seq<Charge>, user: nat, due: set<nat>): int {
    if charges == [] then 0
    else Due(charges[..|charges| - 1], user, due)
         + if |charges| - 1 in due && charges[|charges| - 1].user == user && charges[|charges| - 1].state.Held?
           then charges[|charges| - 1].amount else 0
  }

  function Lapse(charges: seq<Charge>, due: set<nat>): seq<Charge> {
    if charges == [] then []
    else Lapse(charges[..|charges| - 1], due)
         + [if |charges| - 1 in due && charges[|charges| - 1].state.Held?
            then charges[|charges| - 1].(state := Expired) else charges[|charges| - 1]]
  }

  predicate Holds(b: Books, id: nat, owner: nat) {
    id < |b.charges| && b.charges[id].owner == owner && b.charges[id].state.Held? && b.charges[id].user in b.accounts
  }

  function Exec(b: Books, op: Op): Books {
    match op
    case EnsureAccount(user, active) =>
      if active && user !in b.accounts then b.(accounts := b.accounts[user := Account(0, 0, 0)]) else b
    case ReserveUsage(user, owner, amount) =>
      if user in b.accounts && Available(b.accounts[user]) >= amount
      then b.(accounts := b.accounts[user := b.accounts[user].(held := b.accounts[user].held + amount)],
              charges := b.charges + [Charge(user, owner, amount, Held)])
      else b
    case CommitUsage(id, owner, unexpired) =>
      if Holds(b, id, owner) && unexpired
      then var c := b.charges[id];
           var a := b.accounts[c.user];
           Books(b.accounts[c.user := a.(held := a.held - c.amount, debit := a.debit + c.amount)],
                 b.charges[id := c.(state := Committed)],
                 b.entries + [Entry(c.user, true, c.amount, Some(id))])
      else b
    case ReleaseUsage(id, owner) =>
      if Holds(b, id, owner)
      then var c := b.charges[id];
           var a := b.accounts[c.user];
           b.(accounts := b.accounts[c.user := a.(held := a.held - c.amount)],
              charges := b.charges[id := c.(state := Released)])
      else b
    case ExpireReservations(due) =>
      b.(accounts := map u | u in b.accounts :: b.accounts[u].(held := b.accounts[u].held - Due(b.charges, u, due)),
         charges := Lapse(b.charges, due))
    case Adjust(user, debit, amount) =>
      if user in b.accounts && (!debit || Available(b.accounts[user]) >= amount)
      then var a := b.accounts[user];
           b.(accounts := b.accounts[user := if debit then a.(debit := a.debit + amount) else a.(credit := a.credit + amount)],
              entries := b.entries + [Entry(user, debit, amount, None)])
      else b
  }

  function Posted(entries: seq<Entry>, user: nat, debit: bool): int {
    if entries == [] then 0
    else Posted(entries[..|entries| - 1], user, debit)
         + if entries[|entries| - 1].user == user && entries[|entries| - 1].debit == debit then entries[|entries| - 1].amount else 0
  }

  // ----- the invariant

  /** An account's held amount is exactly its open reservations, its totals are its entries, and it is never overdrawn. */
  ghost predicate AccountOk(b: Books, u: nat)
    requires u in b.accounts
  {
    var a := b.accounts[u];
    && a.held == Sum(b.charges, u, Held)
    && a.credit == Posted(b.entries, u, false) && a.debit == Posted(b.entries, u, true)
    && Available(a) >= 0
  }

  ghost predicate Debited(b: Books, id: nat) {
    exists k | 0 <= k < |b.entries| :: b.entries[k].charge == Some(id)
  }

  /** A charge is debited exactly when it is committed, once, in full and to its own account. */
  ghost predicate ChargesOk(b: Books) {
    && (forall id | 0 <= id < |b.charges| :: b.charges[id].user in b.accounts && (b.charges[id].state.Committed? <==> Debited(b, id)))
    && (forall k | 0 <= k < |b.entries| && b.entries[k].charge.Some? ::
          var id := b.entries[k].charge.value;
          id < |b.charges| && b.entries[k].debit && b.entries[k].user == b.charges[id].user && b.entries[k].amount == b.charges[id].amount)
    && (forall k, m | 0 <= k < m < |b.entries| && b.entries[k].charge.Some? :: b.entries[k].charge != b.entries[m].charge)
  }

  /** Nothing is posted without an account. */
  ghost predicate EntriesOk(b: Books) {
    forall k | 0 <= k < |b.entries| :: b.entries[k].user in b.accounts
  }

  ghost predicate Inv(b: Books) {
    (forall u | u in b.accounts :: AccountOk(b, u)) && ChargesOk(b) && EntriesOk(b)
  }

  lemma {:induction false} SumAppend(charges: seq<Charge>, c: Charge, user: nat, state: ChargeState)
    ensures Sum(charges + [c], user, state) == Sum(charges, user, state) + if c.user == user && c.state == state then c.amount else 0
  {
    assert (charges + [c])[..|charges|] == charges;
  }

  lemma {:induction false} SumUpdate(charges: seq<Charge>, id: nat, c: Charge, user: nat)
    requires id < |charges|
    ensures Sum(charges[id := c], user, Held) ==
            Sum(charges, user, Held)
            - (if charges[id].user == user && charges[id].state.Held? then charges[id].amount else 0)
            + (if c.user == user && c.state.Held? then c.amount else 0)
  {
    var n := |charges| - 1;
    if id == n {
      assert charges[id := c][..n] == charges[..n];
    } else {
      SumUpdate(charges[..n], id, c, user);
      assert charges[id := c][..n] == charges[..n][id := c];
    }
  }

  lemma {:induction false} LapseAt(charges: seq<Charge>, due: set<nat>)
    ensures |Lapse(charges, due)| == |charges|
    ensures forall i | 0 <= i < |charges| ::
              Lapse(charges, due)[i] == if i in due && charges[i].state.Held? then charges[i].(state := Expired) else charges[i]
  {
    if charges != [] {
      LapseAt(charges[..|charges| - 1], due);
    }
  }

  /** A sweep frees exactly the amounts of the charges it closes. */
  lemma {:induction false} LapseSum(charges: seq<Charge>, user: nat, due: set<nat>)
    ensures Sum(Lapse(charges, due), user, Held) == Sum(charges, user, Held) - Due(charges, user, due)
  {
    if charges != [] {
      var n := |charges| - 1;
      LapseSum(charges[..n], user, due);
      LapseAt(charges, due);
      LapseAt(charges[..n], due);
      assert Lapse(charges, due)[..n] == Lapse(charges[..n], due);
    }
  }

  lemma {:induction false} DueNonNegative(charges: seq<Charge>, user: nat, due: set<nat>)
    ensures Due(charges, user, due) >= 0
  {
    if charges != [] {
      DueNonNegative(charges[..|charges| - 1], user, due);
    }
  }

  lemma {:induction false} PostedAppend(entries: seq<Entry>, e: Entry, user: nat, debit: bool)
    ensures Posted(entries + [e], user, debit) == Posted(entries, user, debit) + if e.user == user && e.debit == debit then e.amount else 0
  {
    assert (entries + [e])[..|entries|] == entries;
  }

  lemma {:induction false} NoCharges(charges: seq<Charge>, user: nat)
    requires forall i | 0 <= i < |charges| :: charges[i].user != user
    ensures Sum(charges, user, Held) == 0
  {
    if charges != [] {
      NoCharges(charges[..|charges| - 1], user);
    }
  }

  lemma {:induction false} NoEntries(entries: seq<Entry>, user: nat, debit: bool)
    requires forall i | 0 <= i < |entries| :: entries[i].user != user
    ensures Posted(entries, user, debit) == 0
  {
    if entries != [] {
      NoEntries(entries[..|entries| - 1], user, debit);
    }
  }

  /** A new account starts empty: nothing refers to it yet. */
  lemma {:induction false} EnsureKeeps(b: Books, user: nat, active: bool)
    requires Inv(b)
    ensures Inv(Exec(b, EnsureAccount(user, active)))
  {
    hide Sum, Posted;
    var n := Exec(b, EnsureAccount(user, active));
    if active && user !in b.accounts {
      NoCharges(b.charges, user);
      NoEntries(b.entries, user, true);
      NoEntries(b.entries, user, false);
      forall u | u in n.accounts ensures AccountOk(n, u) {
        if u != user {
          assert AccountOk(b, u);
        }
      }
      assert forall i: nat :: Debited(n, i) <==> Debited(b, i);
    }
  }

  lemma {:induction false} ReserveKeeps(b: Books, user: nat, owner: nat, amount: nat)
    requires Inv(b)
    ensures Inv(Exec(b, ReserveUsage(user, owner, amount)))
  {
    hide Sum, Posted;
    var n := Exec(b, ReserveUsage(user, owner, amount));
    if n != b {
      forall u | u in n.accounts ensures AccountOk(n, u) {
        assert AccountOk(b, u);
        SumAppend(b.charges, Charge(user, owner, amount, Held), u, Held);
      }
      assert forall id | 0 <= id < |b.charges| :: n.charges[id] == b.charges[id] && (Debited(n, id) <==> Debited(b, id));
      assert !Debited(n, |b.charges|);
    }
  }

  lemma {:induction false} CommitKeeps(b: Books, id: nat, owner: nat, unexpired: bool)
    requires Inv(b)
    ensures Inv(Exec(b, CommitUsage(id, owner, unexpired)))
  {
    hide Sum, Posted, ChargesOk;
    var n := Exec(b, CommitUsage(id, owner, unexpired));
    if Holds(b, id, owner) && unexpired {
      var c := b.charges[id];
      var e := Entry(c.user, true, c.amount, Some(id));
      forall u | u in n.accounts ensures AccountOk(n, u) {
        assert AccountOk(b, u);
        SumUpdate(b.charges, id, c.(state := Committed), u);
        PostedAppend(b.entries, e, u, true);
        PostedAppend(b.entries, e, u, false);
      }
      CommitCharges(b, id, owner);
    }
  }

  lemma {:induction false} CommitCharges(b: Books, id: nat, owner: nat)
    requires ChargesOk(b) && Holds(b, id, owner)
    ensures ChargesOk(Exec(b, CommitUsage(id, owner, true)))
  {
    var n := Exec(b, CommitUsage(id, owner, true));
    var last := |b.entries|;
    assert n.entries[last].charge == Some(id);
    assert !Debited(b, id);
    forall i | 0 <= i < |n.charges| ensures n.charges[i].user in n.accounts && (n.charges[i].state.Committed? <==> Debited(n, i)) {
      if i != id {
        assert n.charges[i] == b.charges[i];
        if Debited(b, i) {
          var k :| 0 <= k < |b.entries| && b.entries[k].charge == Some(i);
          assert n.entries[k].charge == Some(i);
        }
        if Debited(n, i) {
          var k :| 0 <= k < |n.entries| && n.entries[k].charge == Some(i);
          assert b.entries[k].charge == Some(i);
        }
      }
    }
  }

  lemma {:induction false} ReleaseKeeps(b: Books, id: nat, owner: nat)
    requires Inv(b)
    ensures Inv(Exec(b, ReleaseUsage(id, owner)))
  {
    hide Sum, Posted;
    var n := Exec(b, ReleaseUsage(id, owner));
    if Holds(b, id, owner) {
      forall u | u in n.accounts ensures AccountOk(n, u) {
        assert AccountOk(b, u);
        SumUpdate(b.charges, id, b.charges[id].(state := Released), u);
      }
      assert forall i: nat :: Debited(n, i) <==> Debited(b, i);
    }
  }

  lemma {:induction false} ExpireKeeps(b: Books, due: set<nat>)
    requires Inv(b)
    ensures Inv(Exec(b, ExpireReservations(due)))
  {
    hide Sum, Posted, Due, Lapse;
    var n := Exec(b, ExpireReservations(due));
    LapseAt(b.charges, due);
    forall u | u in n.accounts ensures AccountOk(n, u) {
      assert AccountOk(b, u);
      LapseSum(b.charges, u, due);
      DueNonNegative(b.charges, u, due);
    }
    assert forall i: nat :: Debited(n, i) <==> Debited(b, i);
  }

  lemma {:induction false} AdjustKeeps(b: Books, user: nat, debit: bool, amount: nat)
    requires Inv(b)
    ensures Inv(Exec(b, Adjust(user, debit, amount)))
  {
    hide Sum, Posted;
    var n := Exec(b, Adjust(user, debit, amount));
    if n != b {
      var e := Entry(user, debit, amount, None);
      forall u | u in n.accounts ensures AccountOk(n, u) {
        assert AccountOk(b, u);
        PostedAppend(b.entries, e, u, true);
        PostedAppend(b.entries, e, u, false);
      }
      forall i: nat ensures Debited(n, i) <==> Debited(b, i) {
        if Debited(b, i) {
          var k :| 0 <= k < |b.entries| && b.entries[k].charge == Some(i);
          assert n.entries[k].charge == Some(i);
        }
      }
    }
  }

  function Run(b: Books, ops: seq<Op>): Books
    decreases |ops|
  {
    if ops == [] then b else Run(Exec(b, ops[0]), ops[1..])
  }

  /**
   Over every interleaving: held amounts are the open reservations, totals are the entries,
   no account is overdrawn, and each charge is debited exactly when it is committed.
   */
  lemma {:induction false} RunKeeps(b: Books, ops: seq<Op>)
    requires Inv(b)
    ensures Inv(Run(b, ops))
    decreases |ops|
  {
    hide Inv, Exec;
    if ops != [] {
      match ops[0] {
        case EnsureAccount(user, active) => EnsureKeeps(b, user, active);
        case ReserveUsage(user, owner, amount) => ReserveKeeps(b, user, owner, amount);
        case CommitUsage(id, owner, unexpired) => CommitKeeps(b, id, owner, unexpired);
        case ReleaseUsage(id, owner) => ReleaseKeeps(b, id, owner);
        case ExpireReservations(due) => ExpireKeeps(b, due);
        case Adjust(user, debit, amount) => AdjustKeeps(b, user, debit, amount);
      }
      RunKeeps(Exec(b, ops[0]), ops[1..]);
    }
  }

  const NO_BOOKS := Books(map[], [], [])

  /** So they are after every history, starting without any account. */
  lemma {:induction false} EveryHistory(ops: seq<Op>)
    ensures Inv(Run(NO_BOOKS, ops))
  {
    RunKeeps(NO_BOOKS, ops);
  }

  /** A closed charge stays closed as it is, whatever happens later: no charge is decided twice. */
  lemma {:induction false} DecidedOnce(b: Books, ops: seq<Op>, id: nat)
    requires id < |b.charges| && !b.charges[id].state.Held?
    ensures id < |Run(b, ops).charges| && Run(b, ops).charges[id] == b.charges[id]
    decreases |ops|
  {
    if ops != [] {
      if ops[0].ExpireReservations? {
        LapseAt(b.charges, ops[0].due);
      }
      DecidedOnce(Exec(b, ops[0]), ops[1..], id);
    }
  }

  // ----- what each call does

  /** Every other account and charge stays as it is. */
  ghost predicate OnlyTouches(b: Books, n: Books, user: nat, id: nat) {
    && n.accounts.Keys == b.accounts.Keys && |n.charges| >= |b.charges|
    && (forall u | u in b.accounts && u != user :: n.accounts[u] == b.accounts[u])
    && (forall k | 0 <= k < |b.charges| && k != id :: n.charges[k] == b.charges[k])
  }

  /** A reservation takes effect exactly when the account covers it, and makes that much less available. */
  lemma {:induction false} ReserveEffect(b: Books, user: nat, owner: nat, amount: nat)
    requires user in b.accounts
    ensures var n := Exec(b, ReserveUsage(user, owner, amount));
            && (n != b <==> b.accounts[user].credit - b.accounts[user].debit - b.accounts[user].held >= amount)
            && (n != b ==> && n.charges == b.charges + [Charge(user, owner, amount, Held)]
                           && Available(n.accounts[user]) == Available(b.accounts[user]) - amount
                           && n.entries == b.entries && OnlyTouches(b, n, user, |b.charges|))
  {
    var n := Exec(b, ReserveUsage(user, owner, amount));
    assert n.charges == b.charges || |n.charges| == |b.charges| + 1;
  }

  /** A commit by the owner debits what was held: nothing more or less is available afterwards. */
  lemma {:induction false} CommitEffect(b: Books, id: nat, owner: nat)
    requires Holds(b, id, owner)
    ensures var n, user, amount := Exec(b, CommitUsage(id, owner, true)), b.charges[id].user, b.charges[id].amount;
            && n.charges[id].state.Committed? && OnlyTouches(b, n, user, id)
            && n.accounts[user].debit == b.accounts[user].debit + amount
            && Available(n.accounts[user]) == Available(b.accounts[user])
            && n.entries == b.entries + [Entry(user, true, amount, Some(id))]
    ensures Exec(b, CommitUsage(id, owner, false)) == b
  {
  }

  /** A release by the owner makes the amount available again. */
  lemma {:induction false} ReleaseEffect(b: Books, id: nat, owner: nat)
    requires Holds(b, id, owner)
    ensures var n, user, amount := Exec(b, ReleaseUsage(id, owner)), b.charges[id].user, b.charges[id].amount;
            && n.charges[id].state.Released? && OnlyTouches(b, n, user, id)
            && Available(n.accounts[user]) == Available(b.accounts[user]) + amount
            && n.accounts[user].debit == b.accounts[user].debit && n.entries == b.entries
  {
  }

  /** Nobody but the owner decides a charge, and only while it is held. */
  lemma {:induction false} StrangersDecideNothing(b: Books, id: nat, owner: nat, unexpired: bool)
    requires id >= |b.charges| || b.charges[id].owner != owner || !b.charges[id].state.Held?
    ensures Exec(b, CommitUsage(id, owner, unexpired)) == b && Exec(b, ReleaseUsage(id, owner)) == b
  {
  }

  /** A sweep closes exactly the due charges that are held, and makes their amounts available again. */
  lemma {:induction false} ExpireEffect(b: Books, due: set<nat>, u: nat)
    requires u in b.accounts
    ensures var n := Exec(b, ExpireReservations(due));
            && |n.charges| == |b.charges| && n.entries == b.entries
            && (forall k | 0 <= k < |b.charges| ::
                  n.charges[k] == if k in due && b.charges[k].state.Held? then b.charges[k].(state := Expired) else b.charges[k])
            && u in n.accounts
            && Available(n.accounts[u]) == Available(b.accounts[u]) + Sum(b.charges, u, Held) - Sum(n.charges, u, Held)
  {
    hide Sum, Due, Lapse;
    LapseAt(b.charges, due);
    LapseSum(b.charges, u, due);
  }

  /** An adjustment moves the available amount by exactly its own; a debit beyond it is refused. */
  lemma {:induction false} AdjustEffect(b: Books, user: nat, debit: bool, amount: nat)
    requires user in b.accounts
    ensures var n := Exec(b, Adjust(user, debit, amount));
            if debit && Available(b.accounts[user]) < amount then n == b
            else && Available(n.accounts[user]) == Available(b.accounts[user]) + (if debit then 0 - amount else amount)
                 && n.entries == b.entries + [Entry(user, debit, amount, None)] && n.charges == b.charges
                 && OnlyTouches(b, n, user, |b.charges|)
  {
  }
}
