/**
 The in-memory key repository: limits, rotation, revocation and listing. Prefixes are the
 sequences of their character codes, ordered as texts are.
 */
module ApiKeys {
  import opened Prelude
  import opened Lexicographic
  import opened Keyset

  type Prefix = Word

  /** `policy` stands for name, rate, burst and scopes, which are only compared. */
  datatype ApiKey = ApiKey(
    prefix: Prefix, digest: Bytes, owner: Option<nat>, ownerActive: bool, policy: nat,
    createdAt: nat, revokedAt: Option<int>, deletedAt: Option<int>)

  type Records = map<Prefix, ApiKey>

  datatype Op =
    | Put(key: ApiKey)
    | PutForUser(user: nat, key: ApiKey, maximum: int)
    | Revoke(prefix: Prefix, at: int)
    | RevokeForUser(user: nat, prefix: Prefix, at: int)
    | Rotate(prefix: Prefix, replacement: ApiKey)
    | RotateForUser(user: nat, prefix: Prefix, replacement: ApiKey)
    | DeleteForUser(user: nat, prefix: Prefix, at: int)

  predicate Active(k: ApiKey, user: nat) {
    k.owner == Some(user) && k.revokedAt.None?
  }

  function ActiveKeys(rs: Records, user: nat): set<Prefix> {
    set p | p in rs && Active(rs[p], user)
  }

  /** The key that a user's own call may touch. */
  predicate Visible(rs: Records, user: nat, prefix: Prefix) {
    prefix in rs && rs[prefix].deletedAt.None? && rs[prefix].owner == Some(user)
  }

  function Revoked(k: ApiKey, at: int): ApiKey {
    k.(revokedAt := Some(at))
  }

  function Apply(rs: Records, op: Op): Records {
    match op
    case Put(key) => if key.prefix in rs then rs else rs[key.prefix := key]
    case PutForUser(user, key, maximum) =>
      if key.owner != Some(user) || maximum < 1 || key.prefix in rs || |ActiveKeys(rs, user)| >= maximum then rs
      else rs[key.prefix := key.(ownerActive := true)]
    case Revoke(prefix, at) => if prefix in rs then rs[prefix := Revoked(rs[prefix], at)] else rs
    case RevokeForUser(user, prefix, at) =>
      if Visible(rs, user, prefix) && rs[prefix].revokedAt.None?
      then rs[prefix := Revoked(rs[prefix], at).(ownerActive := true)] else rs
    case Rotate(prefix, next) =>
      if prefix in rs && rs[prefix].revokedAt.None? && next.prefix !in rs
         && next.policy == rs[prefix].policy && next.owner == rs[prefix].owner
      then rs[prefix := Revoked(rs[prefix], next.createdAt)][next.prefix := next] else rs
    case RotateForUser(user, prefix, next) =>
      if Visible(rs, user, prefix) && rs[prefix].revokedAt.None? && next.owner == Some(user) && next.prefix !in rs
      then rs[prefix := Revoked(rs[prefix], next.createdAt)][next.prefix := next.(ownerActive := true)] else rs
    case DeleteForUser(user, prefix, at) =>
      if prefix in rs && rs[prefix].owner == Some(user) && rs[prefix].revokedAt.Some? && rs[prefix].deletedAt.None?
      then rs[prefix := rs[prefix].(deletedAt := Some(at))] else rs
  }

  function ApplyAll(rs: Records, ops: seq<Op>): Records {
    if ops == [] then rs else Apply(ApplyAll(rs, ops[..|ops| - 1]), ops[|ops| - 1])
  }

  // ----- limits

  /** The call adds an active key of `user` although `maximum` of them are active. */
  predicate Exceeds(rs: Records, op: Op, user: nat, maximum: int) {
    && |ActiveKeys(rs, user)| == maximum
    && match op
       case Put(key) => Active(key, user) && key.prefix !in rs
       case PutForUser(u, key, m) => u == user && Active(key, user) && key.prefix !in rs && maximum < m
       case _ => false
  }

  lemma {:induction false} ActiveUpdate(rs: Records, prefix: Prefix, k: ApiKey, user: nat)
    ensures ActiveKeys(rs[prefix := k], user) ==
            if Active(k, user) then ActiveKeys(rs, user) + {prefix} else ActiveKeys(rs, user) - {prefix}
  {
  }

  lemma {:induction false} RotateCounts(rs: Records, prefix: Prefix, next: ApiKey, at: int, user: nat)
    requires prefix in rs && rs[prefix].revokedAt.None? && next.prefix !in rs && next.owner == rs[prefix].owner
    ensures var after := rs[prefix := Revoked(rs[prefix], at)][next.prefix := next];
            && |ActiveKeys(after, user)| == |ActiveKeys(rs, user)|
                 - (if Active(rs[prefix], user) && next.revokedAt.Some? then 1 else 0)
            && (Active(rs[prefix], user) && next.revokedAt.None? ==>
                  ActiveKeys(after, user) == ActiveKeys(rs, user) - {prefix} + {next.prefix})
  {
    var middle := rs[prefix := Revoked(rs[prefix], at)];
    ActiveUpdate(rs, prefix, Revoked(rs[prefix], at), user);
    ActiveUpdate(middle, next.prefix, next, user);
    assert next.prefix !in ActiveKeys(rs, user);
    if Active(rs[prefix], user) {
      assert prefix in ActiveKeys(rs, user);
    } else {
      assert prefix !in ActiveKeys(rs, user);
    }
  }

  /** A call that stores one key adds it to the active ones, or does not. */
  lemma {:induction false} PutCounts(rs: Records, key: ApiKey, user: nat)
    requires key.prefix !in rs
    ensures |ActiveKeys(rs[key.prefix := key], user)| == |ActiveKeys(rs, user)| + if Active(key, user) then 1 else 0
  {
    hide ActiveKeys;
    NoStranger(rs, user);
    ActiveUpdate(rs, key.prefix, key, user);
  }

  /** A call that closes a key, or does nothing to its activity, adds none. */
  lemma {:induction false} UpdateCounts(rs: Records, p: Prefix, k: ApiKey, user: nat)
    requires p in rs && (Active(k, user) ==> Active(rs[p], user))
    ensures |ActiveKeys(rs[p := k], user)| <= |ActiveKeys(rs, user)|
  {
    hide ActiveKeys;
    ActiveUpdate(rs, p, k, user);
    if Active(k, user) {
      SameActive(rs, p, k, user);
    }
  }

  lemma {:induction false} OthersAddNone(rs: Records, op: Op, user: nat)
    requires !op.Put? && !op.PutForUser?
    ensures |ActiveKeys(Apply(rs, op), user)| <= |ActiveKeys(rs, user)|
  {
    hide ActiveKeys;
    if Apply(rs, op) != rs {
      match op {
        case Revoke(p, at) => UpdateCounts(rs, p, Revoked(rs[p], at), user);
        case RevokeForUser(u, p, at) => UpdateCounts(rs, p, Revoked(rs[p], at).(ownerActive := true), user);
        case Rotate(p, n) => RotateCounts(rs, p, n, n.createdAt, user);
        case RotateForUser(u, p, n) => RotateCounts(rs, p, n.(ownerActive := true), n.createdAt, user);
        case DeleteForUser(u, p, at) => UpdateCounts(rs, p, rs[p].(deletedAt := Some(at)), user);
      }
    }
  }

  /** Every call keeps the limit, except exactly those that exceed it. */
  lemma {:induction false} ApplyKeepsLimit(rs: Records, op: Op, user: nat, maximum: int)
    requires |ActiveKeys(rs, user)| <= maximum
    ensures |ActiveKeys(Apply(rs, op), user)| <= maximum <==> !Exceeds(rs, op, user, maximum)
  {
    hide ActiveKeys;
    match op {
      case Put(key) =>
        if key.prefix !in rs {
          PutCounts(rs, key, user);
        }
      case PutForUser(u, key, m) =>
        if key.prefix !in rs {
          PutCounts(rs, key.(ownerActive := true), user);
        }
      case _ => OthersAddNone(rs, op, user);
    }
  }

  lemma {:induction false} SameActive(rs: Records, p: Prefix, k: ApiKey, user: nat)
    requires p in rs && (Active(k, user) <==> Active(rs[p], user))
    ensures ActiveKeys(rs[p := k], user) == ActiveKeys(rs, user)
  {
  }

  lemma {:induction false} NoStranger(rs: Records, user: nat)
    ensures ActiveKeys(rs, user) <= rs.Keys
  {
  }

  /** Over every run of calls, a user's active keys stay within the limit exactly when no call exceeds it. */
  lemma {:induction false} LimitHolds(rs: Records, ops: seq<Op>, user: nat, maximum: int)
    requires |ActiveKeys(rs, user)| <= maximum
    ensures (forall n | 0 <= n <= |ops| :: |ActiveKeys(ApplyAll(rs, ops[..n]), user)| <= maximum)
            <==> (forall n | 0 <= n < |ops| :: !Exceeds(ApplyAll(rs, ops[..n]), ops[n], user, maximum))
  {
    hide ActiveKeys, Apply, Exceeds;
    if forall n | 0 <= n <= |ops| :: |ActiveKeys(ApplyAll(rs, ops[..n]), user)| <= maximum {
      forall n | 0 <= n < |ops| ensures !Exceeds(ApplyAll(rs, ops[..n]), ops[n], user, maximum) {
        OneMoreOp(rs, ops, n);
        ApplyKeepsLimit(ApplyAll(rs, ops[..n]), ops[n], user, maximum);
        assert |ActiveKeys(ApplyAll(rs, ops[..n + 1]), user)| <= maximum;
      }
    }
    if forall n | 0 <= n < |ops| :: !Exceeds(ApplyAll(rs, ops[..n]), ops[n], user, maximum) {
      forall n | 0 <= n <= |ops| ensures |ActiveKeys(ApplyAll(rs, ops[..n]), user)| <= maximum {
        LimitUpTo(rs, ops, n, user, maximum);
      }
    }
  }

  lemma {:induction false} OneMoreOp(rs: Records, ops: seq<Op>, n: nat)
    requires n < |ops|
    ensures ApplyAll(rs, ops[..n + 1]) == Apply(ApplyAll(rs, ops[..n]), ops[n])
  {
    hide Apply;
    assert ops[..n + 1][..n] == ops[..n];
  }

  lemma {:induction false} LimitUpTo(rs: Records, ops: seq<Op>, n: nat, user: nat, maximum: int)
    requires |ActiveKeys(rs, user)| <= maximum && n <= |ops|
    requires forall i | 0 <= i < n :: !Exceeds(ApplyAll(rs, ops[..i]), ops[i], user, maximum)
    ensures |ActiveKeys(ApplyAll(rs, ops[..n]), user)| <= maximum
  {
    hide ActiveKeys, Apply, Exceeds;
    if n > 0 {
      LimitUpTo(rs, ops, n - 1, user, maximum);
      OneMoreOp(rs, ops, n - 1);
      assert !Exceeds(ApplyAll(rs, ops[..n - 1]), ops[n - 1], user, maximum);
      ApplyKeepsLimit(ApplyAll(rs, ops[..n - 1]), ops[n - 1], user, maximum);
    }
  }

  /** The manager's calls: a plain `Put` stores a key without owner, and one policy sets every maximum. */
  predicate ByManager(op: Op, maximum: int) {
    match op
    case Put(key) => key.owner.None?
    case PutForUser(_, _, m) => m <= maximum
    case _ => true
  }

  /** So the manager keeps every user within the policy, whatever it is asked and however calls interleave. */
  lemma {:induction false} ManagerKeepsLimit(rs: Records, ops: seq<Op>, user: nat, maximum: int)
    requires |ActiveKeys(rs, user)| <= maximum && forall i | 0 <= i < |ops| :: ByManager(ops[i], maximum)
    ensures forall n | 0 <= n <= |ops| :: |ActiveKeys(ApplyAll(rs, ops[..n]), user)| <= maximum
  {
    hide ActiveKeys, Apply;
    forall n | 0 <= n < |ops| ensures !Exceeds(ApplyAll(rs, ops[..n]), ops[n], user, maximum) {
      assert ByManager(ops[n], maximum);
    }
    LimitHolds(rs, ops, user, maximum);
  }

  /** A plain `Put` of an active key with an owner does not look at the limit. */
  lemma {:induction false} PutIgnoresLimit(rs: Records, key: ApiKey, user: nat)
    requires Active(key, user) && key.prefix !in rs
    ensures |ActiveKeys(Apply(rs, Put(key)), user)| == |ActiveKeys(rs, user)| + 1
  {
    PutCounts(rs, key, user);
  }

  /** A rotation that takes effect revokes one key and adds one; a fresh replacement keeps the count. */
  lemma {:induction false} RotationKeepsCount(rs: Records, op: Op, user: nat)
    requires (op.Rotate? || op.RotateForUser?) && op.replacement.revokedAt.None? && Apply(rs, op) != rs
    ensures |ActiveKeys(Apply(rs, op), user)| == |ActiveKeys(rs, user)|
    ensures op.prefix in rs && rs[op.prefix].revokedAt.None? && Apply(rs, op)[op.prefix].revokedAt.Some?
    ensures Apply(rs, op).Keys == rs.Keys + {op.replacement.prefix} && op.replacement.prefix !in rs
    ensures forall p | p in rs && p != op.prefix :: Apply(rs, op)[p] == rs[p]
  {
    hide ActiveKeys;
    if op.Rotate? {
      RotateCounts(rs, op.prefix, op.replacement, op.replacement.createdAt, user);
    } else {
      RotateCounts(rs, op.prefix, op.replacement.(ownerActive := true), op.replacement.createdAt, user);
    }
  }

  // ----- authentication

  /** Who a token is, given its parsed prefix and its digest. */
  predicate Authenticates(rs: Records, prefix: Prefix, digest: Bytes) {
    && prefix in rs && rs[prefix].digest == digest
    && rs[prefix].revokedAt.None? && (rs[prefix].owner.Some? ==> rs[prefix].ownerActive)
  }

  /** Records are never removed, never change digest or owner, and never come back from revocation. */
  ghost predicate Later(a: Records, b: Records) {
    forall p | p in a ::
      && p in b && b[p].digest == a[p].digest && b[p].owner == a[p].owner
      && (a[p].revokedAt.Some? ==> b[p].revokedAt.Some?) && (a[p].deletedAt.Some? ==> b[p].deletedAt.Some?)
  }

  lemma {:induction false} ApplyIsLater(rs: Records, op: Op)
    ensures Later(rs, Apply(rs, op))
  {
    hide ActiveKeys;
  }

  lemma {:induction false} RunIsLater(rs: Records, ops: seq<Op>)
    ensures Later(rs, ApplyAll(rs, ops))
  {
    hide Apply;
    if ops != [] {
      RunIsLater(rs, ops[..|ops| - 1]);
      ApplyIsLater(ApplyAll(rs, ops[..|ops| - 1]), ops[|ops| - 1]);
    }
  }

  /** Deleted keys are revoked keys. */
  ghost predicate DeletedAreRevoked(rs: Records) {
    forall p | p in rs && rs[p].deletedAt.Some? :: rs[p].revokedAt.Some?
  }

  /** A key that is revoked or deleted authenticates nobody, then or ever after. */
  lemma {:induction false} RevokedForGood(rs: Records, ops: seq<Op>, prefix: Prefix, digest: Bytes)
    requires prefix in rs && DeletedAreRevoked(rs) && (rs[prefix].revokedAt.Some? || rs[prefix].deletedAt.Some?)
    ensures !Authenticates(ApplyAll(rs, ops), prefix, digest)
  {
    RunIsLater(rs, ops);
  }

  /** Only the digest stored first ever authenticates under a prefix. */
  lemma {:induction false} DigestIsFixed(rs: Records, ops: seq<Op>, prefix: Prefix, digest: Bytes)
    requires prefix in rs && Authenticates(ApplyAll(rs, ops), prefix, digest)
    ensures digest == rs[prefix].digest && rs[prefix].revokedAt.None?
  {
    RunIsLater(rs, ops);
  }

  predicate IssuedKey(k: ApiKey) {
    k.revokedAt.None? && k.deletedAt.None?
  }

  predicate Issues(op: Op) {
    match op
    case Put(key) => IssuedKey(key)
    case PutForUser(_, key, _) => IssuedKey(key)
    case Rotate(_, key) => IssuedKey(key)
    case RotateForUser(_, _, key) => IssuedKey(key)
    case _ => true
  }

  lemma {:induction false} DeletionKeeps(rs: Records, ops: seq<Op>)
    requires DeletedAreRevoked(rs) && forall i | 0 <= i < |ops| :: Issues(ops[i])
    ensures DeletedAreRevoked(ApplyAll(rs, ops))
  {
    hide ActiveKeys;
    if ops != [] {
      DeletionKeeps(rs, ops[..|ops| - 1]);
      assert Issues(ops[|ops| - 1]);
    }
  }

  // ----- listing

  function KeyOf(k: ApiKey): Word {
    [k.createdAt] + k.prefix
  }

  /** A listed key carries no digest. */
  function Shown(k: ApiKey): ApiKey {
    k.(digest := [], ownerActive := true)
  }

  function ShownAmong(rs: Records, some: set<Prefix>, user: nat, after: Option<Word>): set<ApiKey> {
    set p | p in some && p in rs && Visible(rs, user, p) && After(KeyOf(rs[p]), after) :: Shown(rs[p])
  }

  function ShownKeys(rs: Records, user: nat, after: Option<Word>): set<ApiKey> {
    ShownAmong(rs, rs.Keys, user, after)
  }

  lemma {:induction false} ShownOneMore(rs: Records, some: set<Prefix>, p: Prefix, user: nat, after: Option<Word>)
    requires p in rs
    ensures ShownAmong(rs, some + {p}, user, after) ==
            ShownAmong(rs, some, user, after) + if Visible(rs, user, p) && After(KeyOf(rs[p]), after) then {Shown(rs[p])} else {}
  {
    hide Visible, After;
  }

  /** The user's keys that are not deleted, newest first. */
  ghost predicate IsListing(all: seq<ApiKey>, rs: Records, user: nat) {
    Descending(all, KeyOf) && Elements(all) == ShownKeys(rs, user, None)
  }

  ghost predicate Filed(rs: Records) {
    forall p | p in rs :: rs[p].prefix == p
  }

  lemma {:induction false} BelowElements(all: seq<ApiKey>, after: Option<Word>)
    requires Descending(all, KeyOf)
    ensures Descending(Below(all, KeyOf, after), KeyOf)
    ensures Elements(Below(all, KeyOf, after)) == set k | k in all && After(KeyOf(k), after)
  {
    hide After;
    var m := BelowIsSuffix(all, KeyOf, after);
    forall k | k in all && After(KeyOf(k), after) ensures k in all[m..] {
      var i :| 0 <= i < |all| && all[i] == k;
      assert all[m..][i - m] == k;
    }
  }

  lemma {:induction false} ListingBelow(all: seq<ApiKey>, rs: Records, user: nat, after: Option<Word>)
    requires IsListing(all, rs, user)
    ensures Elements(Below(all, KeyOf, after)) == ShownKeys(rs, user, after)
  {
    hide Below, Visible;
    BelowElements(all, after);
    forall k ensures k in all && After(KeyOf(k), after) <==> k in ShownKeys(rs, user, after) {
      if k in all && After(KeyOf(k), after) {
        assert k in Elements(all);
        var p :| p in rs && Visible(rs, user, p) && After(KeyOf(rs[p]), None) && k == Shown(rs[p]);
        assert KeyOf(k) == KeyOf(rs[p]);
      }
      if k in ShownKeys(rs, user, after) {
        var p :| p in rs && Visible(rs, user, p) && After(KeyOf(rs[p]), after) && k == Shown(rs[p]);
        assert k in ShownKeys(rs, user, None);
        assert k in Elements(all) && KeyOf(k) == KeyOf(rs[p]);
      }
    }
  }

  /** The keys collected after visiting the prefixes `seen`. */
  ghost predicate Gathered(rs: Records, items: seq<ApiKey>, seen: set<Prefix>, user: nat, after: Option<Word>) {
    && Elements(items) == ShownAmong(rs, seen, user, after) && DistinctKeys(items, KeyOf)
    && forall i | 0 <= i < |items| :: items[i].prefix in seen
  }

  lemma {:induction false} NothingGathered(rs: Records, user: nat, after: Option<Word>)
    ensures Gathered(rs, [], rs.Keys - rs.Keys, user, after)
  {
    EmptyElements<ApiKey>([]);
  }

  lemma {:induction false} GatherOne(rs: Records, items: seq<ApiKey>, seen: set<Prefix>, p: Prefix, user: nat, after: Option<Word>)
    requires Filed(rs) && Gathered(rs, items, seen, user, after) && p in rs && p !in seen
    ensures Gathered(rs, if Visible(rs, user, p) && After(KeyOf(rs[p]), after) then items + [Shown(rs[p])] else items,
                     seen + {p}, user, after)
  {
    hide Visible, After, ShownAmong, Elements, DistinctKeys, KeyOf;
    ShownOneMore(rs, seen, p, user, after);
    if Visible(rs, user, p) && After(KeyOf(rs[p]), after) {
      var k := Shown(rs[p]);
      KeysDiffer(items, k);
      ElementsAppend(items, k);
    }
  }

  lemma {:induction false} AllGathered(rs: Records, items: seq<ApiKey>, user: nat, after: Option<Word>)
    requires Gathered(rs, items, rs.Keys - {}, user, after)
    ensures Elements(items) == ShownKeys(rs, user, after) && DistinctKeys(items, KeyOf)
  {
    assert rs.Keys - {} == rs.Keys;
  }

  /** Every user has a listing, and only one. */
  lemma {:induction false} ListingExists(rs: Records, user: nat) returns (all: seq<ApiKey>)
    requires Filed(rs)
    ensures IsListing(all, rs, user)
    ensures forall other | IsListing(other, rs, user) :: other == all
  {
    hide Gathered, Visible, After, KeyOf, ShownKeys, Elements, Descending;
    var items: seq<ApiKey> := [];
    var rest := rs.Keys;
    NothingGathered(rs, user, None);
    while rest != {}
      invariant rest <= rs.Keys && Gathered(rs, items, rs.Keys - rest, user, None)
      decreases |rest|
    {
      var p :| p in rest;
      GatherOne(rs, items, rs.Keys - rest, p, user, None);
      assert rs.Keys - (rest - {p}) == rs.Keys - rest + {p};
      items := if Visible(rs, user, p) && After(KeyOf(rs[p]), None) then items + [Shown(rs[p])] else items;
      rest := rest - {p};
    }
    AllGathered(rs, items, user, None);
    SortSorts(items, KeyOf);
    all := SortDescending(items, KeyOf);
    forall other | IsListing(other, rs, user) ensures other == all {
      DescendingIsUnique(other, all, KeyOf);
    }
  }

  /** Counted as active; a listing does not count deleted keys. */
  predicate Counted(k: ApiKey, user: nat, listing: bool) {
    Active(k, user) && (listing ==> k.deletedAt.None?)
  }

  function ActiveAmong(rs: Records, some: set<Prefix>, user: nat, listing: bool): set<Prefix> {
    set p | p in some && p in rs && Counted(rs[p], user, listing)
  }

  lemma {:induction false} NoneActive(rs: Records, user: nat, listing: bool)
    ensures |ActiveAmong(rs, rs.Keys - rs.Keys, user, listing)| == 0
  {
    assert ActiveAmong(rs, rs.Keys - rs.Keys, user, listing) == {};
  }

  lemma {:induction false} ActiveOneMore(rs: Records, some: set<Prefix>, p: Prefix, user: nat, listing: bool)
    requires p in rs && p !in some
    ensures |ActiveAmong(rs, some + {p}, user, listing)| ==
            |ActiveAmong(rs, some, user, listing)| + if Counted(rs[p], user, listing) then 1 else 0
  {
    assert ActiveAmong(rs, some + {p}, user, listing) ==
           ActiveAmong(rs, some, user, listing) + if Counted(rs[p], user, listing) then {p} else {};
  }

  lemma {:induction false} AllActive(rs: Records, user: nat, listing: bool)
    ensures !listing || DeletedAreRevoked(rs) ==> ActiveAmong(rs, rs.Keys - {}, user, listing) == ActiveKeys(rs, user)
    ensures ActiveAmong(rs, rs.Keys - {}, user, listing) == ActiveAmong(rs, rs.Keys, user, listing)
  {
    assert rs.Keys - {} == rs.Keys;
  }

  class MemoryRepository {
    var records: Records

    constructor ()
      ensures records == map[] && Filed(records)
    {
      records := map[];
    }

    method PutKey(key: ApiKey) returns (ok: bool)
      modifies this
      ensures records == Apply(old(records), Put(key)) && (ok <==> key.prefix !in old(records))
      ensures old(Filed(records)) ==> Filed(records)
    {
      if key.prefix in records {
        return false;
      }
      records := records[key.prefix := key];
      ok := true;
    }

    method CountActive(user: nat, listing: bool) returns (active: nat)
      ensures active == |ActiveAmong(records, records.Keys, user, listing)|
      ensures !listing || DeletedAreRevoked(records) ==> active == |ActiveKeys(records, user)|
    {
      hide ActiveAmong;
      active := 0;
      var rest := records.Keys;
      NoneActive(records, user, listing);
      while rest != {}
        invariant rest <= records.Keys
        invariant active == |ActiveAmong(records, records.Keys - rest, user, listing)|
        decreases |rest|
      {
        var p :| p in rest;
        ActiveOneMore(records, records.Keys - rest, p, user, listing);
        assert records.Keys - (rest - {p}) == records.Keys - rest + {p};
        if Counted(records[p], user, listing) {
          active := active + 1;
        }
        rest := rest - {p};
      }
      AllActive(records, user, listing);
    }

    method PutKeyForUser(user: nat, key: ApiKey, maximum: int) returns (ok: bool)
      modifies this
      ensures records == Apply(old(records), PutForUser(user, key, maximum))
      ensures ok <==> records != old(records)
      ensures old(Filed(records)) ==> Filed(records)
    {
      if key.owner != Some(user) || maximum < 1 || key.prefix in records {
        return false;
      }
      var active := CountActive(user, false);
      if active >= maximum {
        return false;
      }
      ghost var before := records;
      records := records[key.prefix := key.(ownerActive := true)];
      assert key.prefix in records && key.prefix !in before;
      ok := true;
    }

    method RotateKeyForUser(user: nat, prefix: Prefix, replacement: ApiKey) returns (ok: bool)
      modifies this
      ensures records == Apply(old(records), RotateForUser(user, prefix, replacement))
      ensures ok <==> records != old(records)
      ensures old(Filed(records)) ==> Filed(records)
    {
      if !Visible(records, user, prefix) || records[prefix].revokedAt.Some? || replacement.owner != Some(user)
         || replacement.prefix in records
      {
        return false;
      }
      ghost var before := records;
      var current := Revoked(records[prefix], replacement.createdAt);
      records := records[prefix := current];
      records := records[replacement.prefix := replacement.(ownerActive := true)];
      assert replacement.prefix in records && replacement.prefix !in before;
      ok := true;
    }

    method RevokeKeyForUser(user: nat, prefix: Prefix, at: int) returns (found: bool)
      modifies this
      ensures records == Apply(old(records), RevokeForUser(user, prefix, at))
      ensures found <==> Visible(old(records), user, prefix)
      ensures found ==> records[prefix].revokedAt.Some?
      ensures old(Filed(records)) ==> Filed(records)
    {
      if !Visible(records, user, prefix) {
        return false;
      }
      if records[prefix].revokedAt.None? {
        records := records[prefix := Revoked(records[prefix], at).(ownerActive := true)];
      }
      found := true;
    }

    method DeleteKeyForUser(user: nat, prefix: Prefix, at: int) returns (ok: bool)
      modifies this
      ensures records == Apply(old(records), DeleteForUser(user, prefix, at))
      ensures ok <==> prefix in old(records) && old(records)[prefix].owner == Some(user) && old(records)[prefix].revokedAt.Some?
      ensures ok ==> records[prefix].deletedAt.Some?
      ensures old(Filed(records)) ==> Filed(records)
    {
      if prefix !in records || records[prefix].owner != Some(user) || records[prefix].revokedAt.None? {
        return false;
      }
      if records[prefix].deletedAt.None? {
        records := records[prefix := records[prefix].(deletedAt := Some(at))];
      }
      ok := true;
    }

    /** The shown keys below the cursor, in no particular order. */
    method Collect(user: nat, after: Option<Word>) returns (items: seq<ApiKey>)
      requires Filed(records)
      ensures Elements(items) == ShownKeys(records, user, after) && DistinctKeys(items, KeyOf)
    {
      hide Gathered, Visible, After, KeyOf;
      items := [];
      var rest := records.Keys;
      NothingGathered(records, user, after);
      while rest != {}
        invariant rest <= records.Keys && Gathered(records, items, records.Keys - rest, user, after)
        decreases |rest|
      {
        var p :| p in rest;
        GatherOne(records, items, records.Keys - rest, p, user, after);
        assert records.Keys - (rest - {p}) == records.Keys - rest + {p};
        if Visible(records, user, p) && After(KeyOf(records[p]), after) {
          items := items + [Shown(records[p])];
        }
        rest := rest - {p};
      }
      AllGathered(records, items, user, after);
    }

    /** A page: the first keys below the cursor of the listing, however the records are stored. */
    method ListForUser(user: nat, after: Option<Word>, limit: int) returns (r: Option<seq<ApiKey>>, active: nat)
      requires Filed(records)
      ensures r.Some? <==> limit >= 1
      ensures r.Some? && DeletedAreRevoked(records) ==> active == |ActiveKeys(records, user)|
      ensures r.Some? ==> forall all | IsListing(all, records, user) :: r.value == Take(Below(all, KeyOf, after), limit)
    {
      hide Below, SortDescending, ShownKeys;
      if limit < 1 {
        return None, 0;
      }
      active := CountActive(user, true);
      var items := Collect(user, after);
      SortSorts(items, KeyOf);
      var sorted := SortDescending(items, KeyOf);
      forall all | IsListing(all, records, user) ensures sorted == Below(all, KeyOf, after) {
        BelowElements(all, after);
        ListingBelow(all, records, user, after);
        DescendingIsUnique(sorted, Below(all, KeyOf, after), KeyOf);
      }
      r := Some(Take(sorted, limit));
    }

    /** Following the pages, each from the last key of the one before, shows every key once, newest first. */
    method ListAll(user: nat, limit: int) returns (r: Option<seq<ApiKey>>)
      requires Filed(records)
      ensures r.Some? <==> limit >= 1
      ensures r.Some? ==> IsListing(r.value, records, user)
    {
      hide Below, IsListing, Filed;
      ghost var listing := ListingExists(records, user);
      ListingStart(listing, records, user);
      if limit < 1 {
        return None;
      }
      var all: seq<ApiKey> := [];
      var after: Option<Word> := None;
      while true
        invariant all + Below(listing, KeyOf, after) == listing
        decreases |Below(listing, KeyOf, after)|
      {
        var page, _ := ListForUser(user, after, limit);
        ghost var rest := Below(listing, KeyOf, after);
        assert page.value == Take(rest, limit);
        if page.value == [] {
          assert rest == [] && all + rest == all;
          return Some(all);
        }
        var n := |page.value|;
        NextPage(listing, KeyOf, after, n);
        assert rest == rest[..n] + rest[n..] && page.value == rest[..n];
        all := all + page.value;
        after := Some(KeyOf(page.value[n - 1]));
      }
    }
  }

  lemma {:induction false} ListingStart(all: seq<ApiKey>, rs: Records, user: nat)
    requires IsListing(all, rs, user)
    ensures Descending(all, KeyOf) && Below(all, KeyOf, None) == all && [] + all == all
  {
    BelowAll(all, KeyOf, None);
  }

  lemma {:induction false} KeysDiffer(items: seq<ApiKey>, k: ApiKey)
    requires DistinctKeys(items, KeyOf) && forall i | 0 <= i < |items| :: items[i].prefix != k.prefix
    ensures DistinctKeys(items + [k], KeyOf)
  {
    forall i | 0 <= i < |items| ensures KeyOf(items[i]) != KeyOf(k) {
      assert KeyOf(items[i])[1..] == items[i].prefix && KeyOf(k)[1..] == k.prefix;
    }
  }

  /** Following the pages shows every key once, newest first. */
  lemma {:induction false} PagesShowAll(all: seq<ApiKey>, rs: Records, user: nat, limit: nat, pages: nat)
    requires IsListing(all, rs, user) && limit >= 1 && pages >= |all|
    ensures Walk(all, KeyOf, None, seq(pages, _ => limit)) == all
  {
    hide Walk;
    BelowAll(all, KeyOf, None);
    WalkIsAll(all, KeyOf, None, seq(pages, _ => limit));
  }

  // ----- what each call does to authentication

  /** Other prefixes authenticate exactly as before. */
  ghost predicate OthersAuthenticate(rs: Records, after: Records, touched: set<Prefix>) {
    forall p, d | p !in touched :: Authenticates(after, p, d) <==> Authenticates(rs, p, d)
  }

  predicate Usable(k: ApiKey) {
    IssuedKey(k) && (k.owner.Some? ==> k.ownerActive)
  }

  /** A stored key authenticates by its own digest at once; a taken prefix is left alone. */
  lemma {:induction false} PutEffect(rs: Records, key: ApiKey, digest: Bytes)
    ensures var after := Apply(rs, Put(key));
            && OthersAuthenticate(rs, after, {key.prefix})
            && (key.prefix in rs ==> after == rs)
            && (key.prefix !in rs && Usable(key) ==> (Authenticates(after, key.prefix, digest) <==> digest == key.digest))
  {
  }

  /** A user's key is stored exactly when it is theirs, its prefix is free and the maximum is not reached. */
  lemma {:induction false} PutForUserEffect(rs: Records, user: nat, key: ApiKey, maximum: int, digest: Bytes)
    ensures var after := Apply(rs, PutForUser(user, key, maximum));
            && OthersAuthenticate(rs, after, {key.prefix})
            && (after != rs <==> key.owner == Some(user) && maximum >= 1 && key.prefix !in rs && |ActiveKeys(rs, user)| < maximum)
            && (after != rs && IssuedKey(key) ==> (Authenticates(after, key.prefix, digest) <==> digest == key.digest))
  {
    hide ActiveKeys;
    var after := Apply(rs, PutForUser(user, key, maximum));
    assert key.prefix !in rs && key.prefix in after ==> after != rs;
  }

  /** After a revocation the key authenticates nobody; a user revokes only their own. */
  lemma {:induction false} RevokeEffect(rs: Records, user: nat, prefix: Prefix, at: int, digest: Bytes)
    requires prefix in rs
    ensures !Authenticates(Apply(rs, Revoke(prefix, at)), prefix, digest)
    ensures OthersAuthenticate(rs, Apply(rs, Revoke(prefix, at)), {prefix})
    ensures Visible(rs, user, prefix) ==> !Authenticates(Apply(rs, RevokeForUser(user, prefix, at)), prefix, digest)
    ensures OthersAuthenticate(rs, Apply(rs, RevokeForUser(user, prefix, at)), {prefix})
    ensures rs[prefix].owner != Some(user) ==> Apply(rs, RevokeForUser(user, prefix, at)) == rs
  {
  }

  /** A rotation hands over: the old key stops, the new one starts, with the same owner and, for the operator's call, the same policy. */
  lemma {:induction false} RotateEffect(rs: Records, op: Op, digest: Bytes)
    requires (op.Rotate? || op.RotateForUser?) && Apply(rs, op) != rs
    ensures op.prefix in rs && op.replacement.owner == rs[op.prefix].owner
    ensures op.Rotate? ==> op.replacement.policy == rs[op.prefix].policy
    ensures op.RotateForUser? ==> Visible(rs, op.user, op.prefix)
    ensures !Authenticates(Apply(rs, op), op.prefix, digest)
    ensures IssuedKey(op.replacement) && (op.Rotate? ==> Usable(op.replacement)) ==>
              (Authenticates(Apply(rs, op), op.replacement.prefix, digest) <==> digest == op.replacement.digest)
    ensures OthersAuthenticate(rs, Apply(rs, op), {op.prefix, op.replacement.prefix})
  {
  }

  /** A deletion hides the key from its owner and changes no answer; only revoked keys are deleted. */
  lemma {:induction false} DeleteEffect(rs: Records, user: nat, prefix: Prefix, at: int)
    requires prefix in rs
    ensures var after := Apply(rs, DeleteForUser(user, prefix, at));
            && OthersAuthenticate(rs, after, {})
            && (after != rs ==> rs[prefix].revokedAt.Some? && rs[prefix].owner == Some(user) && Visible(rs, user, prefix))
            && (Visible(rs, user, prefix) && rs[prefix].revokedAt.Some? ==> !Visible(after, user, prefix))
            && after.Keys == rs.Keys
  {
  }

  /** Only the stored digest authenticates, only while the key is not revoked, and not for an owner who is inactive. */
  lemma {:induction false} AuthenticatesOnly(rs: Records, prefix: Prefix, digest: Bytes)
    requires Authenticates(rs, prefix, digest)
    ensures prefix in rs && rs[prefix].digest == digest && rs[prefix].revokedAt.None?
    ensures rs[prefix].owner.None? || rs[prefix].ownerActive
  {
  }

  /** A listed key is one of the user's keys that are not deleted, without its digest. */
  lemma {:induction false} ListedKeys(all: seq<ApiKey>, rs: Records, user: nat, i: nat) returns (p: Prefix)
    requires Filed(rs) && IsListing(all, rs, user) && i < |all|
    ensures p in rs && rs[p].owner == Some(user) && rs[p].deletedAt.None?
    ensures all[i].digest == [] && all[i].prefix == p && all[i].owner == rs[p].owner && all[i].policy == rs[p].policy
    ensures all[i].createdAt == rs[p].createdAt && all[i].revokedAt == rs[p].revokedAt
  {
    assert all[i] in Elements(all);
    p :| p in rs && Visible(rs, user, p) && After(KeyOf(rs[p]), None) && all[i] == Shown(rs[p]);
  }
}
