/**
 The generation-fenced status cache as a distributed protocol: several API processes, each
 with a broker that invalidates events for its relay and its subscribers, one at a time but
 in any order, and any number of concurrent status reads, share one Redis whose evaluations
 are atomic. Requests may fail before or after taking effect, or take effect later; entries
 may vanish; a process may stop at any point.

 A status snapshot is represented by the number of committed events it reflects: event
 identifiers follow commit order and the database read sees every committed event.
 */
module CacheFence {
  import opened Prelude
  import Decimal

  // ----- state

  datatype Key = Key(logical: string, generation: nat)

  datatype Request =
    | Bump
    | Note(event: nat)
    | Put(key: Key, snapshot: nat)

  /** Generation 0 stands for a missing generation key. */
  datatype Redis = Redis(generation: nat, cursor: string, entries: map<Key, nat>)

  /** The invalidation or fence a process is busy with. */
  datatype Work =
    | Idle
    | Fencing
    | Fenced(committed: nat)
    | Starting(event: nat)
    | Noting(event: nat)
    | Noted(event: nat, bumped: bool)
    | Failing(event: nat)

  /** A finished call of a process, as the process saw it end. */
  datatype Call =
    | FenceSet
    | Bumped(event: nat)
    | Unbumped(event: nat)
    | Unheard(event: nat)

  /**
   `calls` are the finished calls in order; `fencedAt` the number of events committed when this
   process's fence took effect. The broker keeps the last published event and the events it
   invalidated most recently.
   */
  datatype Process = Process(
    enabled: bool, fenced: bool, work: Work, calls: seq<Call>, fencedAt: Option<nat>,
    published: nat, invalidated: seq<nat>)

  const FRESH := Process(false, false, Idle, [], None, 0, [])

  const REPLAY_LIMIT: nat := 256

  /** The newest event among the finished calls. */
  function Newest(calls: seq<Call>): nat {
    if calls == [] then 0
    else var c := calls[|calls| - 1];
         var n := Newest(calls[..|calls| - 1]);
         if c.FenceSet? then n else Max(n, c.event)
  }

  /** The broker refuses an event that was published, or invalidated not long ago. */
  predicate Admits(x: Process, event: nat) {
    event > x.published && event !in x.invalidated
  }

  /** Any finished invalidation is remembered, also one that failed; the oldest is forgotten first. */
  function Remember(order: seq<nat>, event: nat): seq<nat> {
    if event in order then order
    else if |order| < REPLAY_LIMIT then order + [event]
    else (order + [event])[1..]
  }

  function Finish(x: Process, call: Call): Process
    requires !call.FenceSet?
  {
    x.(enabled := !call.Unheard?, work := Idle, calls := x.calls + [call], invalidated := Remember(x.invalidated, call.event))
  }

  /** `need` records, when a read begins, everything committed before the generation of that moment. */
  datatype Read =
    | Began(need: nat)
    | HaveGeneration(generation: nat, need: nat)
    | HaveValue(generation: nat, snapshot: nat, need: nat)
    | Hit(generation: nat, snapshot: nat, need: nat)
    | Missed(generation: nat)
    | Loaded(generation: nat, snapshot: nat)
    | Storing(generation: nat, snapshot: nat)
    | Answered(snapshot: nat)

  datatype Thread = Thread(process: nat, logical: string, read: Read)

  /** `floors[g]` is the number of events committed when the generation became `g`. */
  datatype State = State(
    committed: nat, redis: Redis, floors: seq<nat>, delayed: set<Request>,
    processes: map<nat, Process>, threads: map<nat, Thread>)

  predicate Init(s: State) {
    s == State(0, Redis(0, "0", map[]), [0], {}, map[], map[])
  }

  // ----- Redis evaluations

  function DoBump(s: State): State {
    s.(redis := s.redis.(generation := s.redis.generation + 1), floors := s.floors + [s.committed])
  }

  /** The invalidation script: a newer event bumps the generation and becomes the cursor. */
  function DoNote(s: State, event: nat): State {
    var incoming := Decimal.Format(event);
    if !Decimal.Newer(incoming, s.redis.cursor) then s
    else var b := DoBump(s); b.(redis := b.redis.(cursor := incoming))
  }

  function DoPut(s: State, key: Key, snapshot: nat): State {
    s.(redis := s.redis.(entries := s.redis.entries[key := snapshot]))
  }

  function Do(s: State, r: Request): State {
    match r
    case Bump => DoBump(s)
    case Note(e) => DoNote(s, e)
    case Put(k, n) => DoPut(s, k, n)
  }

  function Failed(s: State, r: Request, effect: Effect): State {
    match effect
    case Never => s
    case Now => Do(s, r)
    case Later => s.(delayed := s.delayed + {r})
  }

  // ----- steps

  function SetProcess(s: State, p: nat, x: Process): State {
    s.(processes := s.processes[p := x])
  }

  function SetRead(s: State, t: nat, r: Read): State
    requires t in s.threads
  {
    s.(threads := s.threads[t := s.threads[t].(read := r)])
  }

  datatype Step =
    | Commit
    | Evict(key: Key)
    | Late(request: Request)
    | Join(p: nat)
    | Disable(p: nat)
    | WorkStep(p: nat, event: nat, effect: Effect)
    | Publish(p: nat, event: nat)
    | Open(t: nat, p: nat, logical: string)
    | ReadStep(t: nat, effect: Effect)

  /**
   One step of a fence or of an invalidation that the relay or a subscriber asked for. Only one
   runs at a time in a process.
   */
  predicate WorkNext(s: State, s': State, p: nat, event: nat, effect: Effect)
    requires p in s.processes
  {
    var x := s.processes[p];
    match x.work
    case Idle =>
      || s' == SetProcess(s, p, x.(work := Fencing))
      || (&& 1 <= event <= s.committed && Admits(x, event)
          && (|| s' == SetProcess(s, p, x.(work := Starting(event)))
              // the circuit refuses: disabled before returning
              || s' == SetProcess(s, p, x.(work := Failing(event)))))
    case Fencing =>
      || s' == SetProcess(Failed(s, Bump, effect), p, x.(enabled := false, fenced := false, work := Idle))
      || s' == SetProcess(s, p, x.(enabled := false, work := Idle))
      || s' == SetProcess(DoBump(s), p, x.(work := Fenced(s.committed)))
    case Fenced(c) =>
      s' == SetProcess(s, p, x.(enabled := true, fenced := true, fencedAt := Some(c), work := Idle, calls := x.calls + [FenceSet]))
    case Starting(e) =>
      if x.fenced then s' == SetProcess(s, p, x.(work := Noting(e))) else
      || s' == SetProcess(DoBump(s), p,
                          x.(fenced := true, fencedAt := Some(s.committed), work := Noting(e), calls := x.calls + [FenceSet]))
      || s' == SetProcess(Failed(s, Bump, effect), p, x.(fenced := false, work := Failing(e)))
    case Noting(e) =>
      || s' == SetProcess(DoNote(s, e), p, x.(work := Noted(e, Decimal.Newer(Decimal.Format(e), s.redis.cursor))))
      || s' == SetProcess(Failed(s, Note(e), effect), p, x.(work := Failing(e)))
    case Noted(e, bumped) =>
      s' == SetProcess(s, p, Finish(x, if bumped then Bumped(e) else Unbumped(e)))
    case Failing(e) =>
      s' == SetProcess(s, p, Finish(x, Unheard(e)))
  }

  /** The relay publishes, in order, events whose invalidation has returned. */
  predicate PublishNext(s: State, s': State, p: nat, event: nat)
    requires p in s.processes
  {
    var x := s.processes[p];
    && event > x.published && (exists k | 0 <= k < |x.calls| :: !x.calls[k].FenceSet? && x.calls[k].event == event)
    && s' == SetProcess(s, p, x.(published := event))
  }

  /** Everything committed before the current generation was reached. */
  function Need(s: State): nat {
    if s.floors == [] then 0 else s.floors[|s.floors| - 1]
  }

  /**
   One step of a status read. Any Redis call may fail, which leads to a miss with generation 0;
   a hit that cannot be decoded falls through to the database with its generation.
   */
  predicate ReadNext(s: State, s': State, t: nat, effect: Effect)
    requires t in s.threads
  {
    var th := s.threads[t];
    match th.read
    case Began(need) =>
      || s' == SetRead(s, t, Missed(0))
      || (s.redis.generation >= 1 && s' == SetRead(s, t, HaveGeneration(s.redis.generation, need)))
    case HaveGeneration(g, need) =>
      var key := Key(th.logical, g);
      || s' == SetRead(s, t, Missed(0))
      || s' == SetRead(s, t, Missed(g))
      || (key in s.redis.entries && s' == SetRead(s, t, HaveValue(g, s.redis.entries[key], need)))
    case HaveValue(g, v, need) =>
      || s' == SetRead(s, t, Missed(0))
      || (s.redis.generation != g && s' == SetRead(s, t, Missed(s.redis.generation)))
      || (s.redis.generation == g && s' == SetRead(s, t, Hit(g, v, need)))
    case Hit(g, v, _) =>
      || s' == SetRead(s, t, Answered(v))
      || s' == SetRead(s, t, Missed(g))
    case Missed(g) =>
      s' == SetRead(s, t, Loaded(g, s.committed))
    case Loaded(g, n) =>
      || s' == SetRead(s, t, Answered(n))
      || (th.process in s.processes && s.processes[th.process].enabled && s' == SetRead(s, t, Storing(g, n)))
    case Storing(g, n) =>
      var put := Put(Key(th.logical, g), n);
      s' == SetRead(Do(s, put), t, Answered(n)) || s' == SetRead(Failed(s, put, effect), t, Answered(n))
    case Answered(_) => false
  }

  predicate Next(s: State, s': State, step: Step) {
    match step
    case Commit => s' == s.(committed := s.committed + 1)
    case Evict(k) => s' == s.(redis := s.redis.(entries := s.redis.entries - {k}))
    case Late(r) => r in s.delayed && s' == Do(s, r)
    case Join(p) => p !in s.processes && s' == SetProcess(s, p, FRESH)
    case Disable(p) => p in s.processes && s' == SetProcess(s, p, s.processes[p].(enabled := false))
    case WorkStep(p, e, effect) => p in s.processes && WorkNext(s, s', p, e, effect)
    case Publish(p, e) => p in s.processes && PublishNext(s, s', p, e)
    case Open(t, p, l) =>
      && t !in s.threads && p in s.processes
      && var r := if s.processes[p].enabled then Began(Need(s)) else Missed(0);
         s' == s.(threads := s.threads[t := Thread(p, l, r)])
    case ReadStep(t, effect) => t in s.threads && ReadNext(s, s', t, effect)
  }

  // ----- invariant

  /** A snapshot kept under generation `g` reflects everything committed before `g` was reached. */
  predicate FreshFor(s: State, g: nat, snapshot: nat) {
    g < |s.floors| && (g >= 1 ==> snapshot >= s.floors[g])
  }

  predicate RedisOk(s: State) {
    && |s.floors| == s.redis.generation + 1
    && (forall i, j | 0 <= i <= j < |s.floors| :: s.floors[i] <= s.floors[j])
    && s.floors[s.redis.generation] <= s.committed
    && Decimal.Canonical(s.redis.cursor)
    && Decimal.Value(s.redis.cursor) <= s.floors[s.redis.generation]
    && (forall k | k in s.redis.entries :: FreshFor(s, k.generation, s.redis.entries[k]))
  }

  predicate RequestOk(s: State, r: Request) {
    match r
    case Bump => true
    case Note(e) => e <= s.committed
    case Put(k, n) => FreshFor(s, k.generation, n)
  }

  /** Everything committed before the newest generation. */
  function Fence(s: State): nat
    requires |s.floors| == s.redis.generation + 1
  {
    s.floors[s.redis.generation]
  }

  /**
   The newest event this process saw fail and has not made up for since: a fence or a bump of
   its own makes up for every event, a call without a bump for events that are not newer.
   */
  function Doubt(calls: seq<Call>): nat {
    if calls == [] then 0
    else var d := Doubt(calls[..|calls| - 1]);
         match calls[|calls| - 1]
         case FenceSet => 0
         case Bumped(_) => 0
         case Unbumped(e) => if e >= d then 0 else d
         case Unheard(e) => Max(d, e)
  }

  /** What a process has invalidated lies below the fence, or is in doubt. */
  predicate Accounted(s: State, calls: seq<Call>)
    requires RedisOk(s)
  {
    Newest(calls) <= s.committed && Newest(calls) <= Max(Fence(s), Doubt(calls))
  }

  predicate ProcessOk(s: State, x: Process)
    requires RedisOk(s)
  {
    && (x.fencedAt.Some? ==> x.fencedAt.value <= Fence(s))
    && (x.enabled ==> x.fencedAt.Some? && x.calls != [] && !x.calls[|x.calls| - 1].Unheard?)
    && (x.fenced ==> x.fencedAt.Some?)
    && Accounted(s, x.calls)
    && match x.work
       case Idle => true
       case Fencing => true
       case Fenced(c) => c <= Fence(s) && Newest(x.calls) <= Fence(s)
       case Starting(e) => 1 <= e <= s.committed
       case Noting(e) => 1 <= e <= s.committed && x.fencedAt.Some?
       case Noted(e, bumped) =>
         1 <= e <= Decimal.Value(s.redis.cursor) && x.fencedAt.Some? && (bumped ==> Newest(x.calls) <= Fence(s))
       case Failing(e) => 1 <= e <= s.committed
  }

  predicate ReadOk(s: State, r: Read)
    requires RedisOk(s)
  {
    match r
    case Began(need) => need <= Fence(s)
    case HaveGeneration(g, need) => 1 <= g < |s.floors| && need <= s.floors[g]
    case HaveValue(g, v, need) => 1 <= g < |s.floors| && need <= s.floors[g] <= v
    case Hit(g, v, need) => 1 <= g < |s.floors| && need <= s.floors[g] <= v
    case Missed(g) => g < |s.floors|
    case Loaded(g, n) => FreshFor(s, g, n)
    case Storing(g, n) => FreshFor(s, g, n)
    case Answered(_) => true
  }

  predicate Inv(s: State) {
    && RedisOk(s)
    && (forall r | r in s.delayed :: RequestOk(s, r))
    && (forall p | p in s.processes :: ProcessOk(s, s.processes[p]))
    && (forall t | t in s.threads :: ReadOk(s, s.threads[t].read))
  }

  // ----- every step keeps the invariant

  /** The shared state only moves forward. */
  predicate Grows(s: State, s': State) {
    && s.committed <= s'.committed && s.floors <= s'.floors
    && RedisOk(s) && RedisOk(s')
    && Decimal.Value(s.redis.cursor) <= Decimal.Value(s'.redis.cursor)
    && Fence(s) <= Fence(s')
  }

  lemma {:induction false} GrowthKeeps(s: State, s': State)
    requires Inv(s) && Grows(s, s')
    requires s'.processes == s.processes && s'.threads == s.threads && s'.delayed == s.delayed
    ensures Inv(s')
  {
    hide RedisOk;
    forall g: nat, n: nat | FreshFor(s, g, n) ensures FreshFor(s', g, n) {
      assert g >= 1 ==> s'.floors[g] == s.floors[g];
    }
    forall t | t in s.threads ensures ReadOk(s', s.threads[t].read) {
      ReadSurvives(s, s', s.threads[t].read);
    }
    forall p | p in s.processes ensures ProcessOk(s', s.processes[p]) {
    }
  }

  lemma {:induction false} ReadSurvives(s: State, s': State, r: Read)
    requires Grows(s, s') && ReadOk(s, r)
    ensures ReadOk(s', r)
  {
    hide RedisOk;
    assert forall g | 0 <= g < |s.floors| :: s'.floors[g] == s.floors[g];
  }

  lemma {:induction false} BumpGrows(s: State)
    requires RedisOk(s)
    ensures Grows(s, DoBump(s)) && Fence(DoBump(s)) == s.committed
  {
    var s' := DoBump(s);
    forall i, j | 0 <= i <= j < |s'.floors| ensures s'.floors[i] <= s'.floors[j] {
      assert i < |s.floors| ==> s.floors[i] <= s.floors[s.redis.generation];
    }
    assert forall g | 0 <= g < |s.floors| :: s'.floors[g] == s.floors[g];
  }

  lemma {:induction false} NoteGrows(s: State, e: nat)
    requires RedisOk(s) && e <= s.committed
    ensures Grows(s, DoNote(s, e)) && e <= Decimal.Value(DoNote(s, e).redis.cursor)
    ensures Decimal.Newer(Decimal.Format(e), s.redis.cursor) ==> Fence(DoNote(s, e)) == s.committed
  {
    hide Decimal.Newer, Decimal.Value, Decimal.Canonical, Decimal.Format;
    Decimal.FormatIsCanonical(e);
    Decimal.NewerIsGreater(Decimal.Format(e), s.redis.cursor);
    BumpGrows(s);
  }

  lemma {:induction false} PutGrows(s: State, k: Key, n: nat)
    requires RedisOk(s) && FreshFor(s, k.generation, n)
    ensures Grows(s, DoPut(s, k, n))
  {
  }

  lemma {:induction false} DoKeeps(s: State, r: Request)
    requires Inv(s) && RequestOk(s, r)
    ensures Inv(Do(s, r)) && Grows(s, Do(s, r))
    ensures Do(s, r).processes == s.processes && Do(s, r).threads == s.threads
  {
    hide RedisOk, ProcessOk, ReadOk, Inv, Grows;
    assert RedisOk(s) by { assert Inv(s); InvParts(s); }
    match r {
      case Bump => BumpGrows(s);
      case Note(e) => NoteGrows(s, e);
      case Put(k, n) => PutGrows(s, k, n);
    }
    GrowthKeeps(s, Do(s, r));
  }

  lemma {:induction false} InvParts(s: State)
    requires Inv(s)
    ensures RedisOk(s)
  {
  }

  lemma {:induction false} FailedKeeps(s: State, r: Request, effect: Effect)
    requires Inv(s) && RequestOk(s, r)
    ensures var m := Failed(s, r, effect);
            Inv(m) && Grows(s, m) && m.processes == s.processes && m.threads == s.threads
  {
    DoKeeps(s, r);
    if effect.Later? {
      DelayKeeps(s, r);
    }
  }

  lemma {:induction false} DelayKeeps(s: State, r: Request)
    requires Inv(s) && RequestOk(s, r)
    ensures Inv(s.(delayed := s.delayed + {r}))
  {
    var m := s.(delayed := s.delayed + {r});
    assert forall t | t in s.threads :: ReadOk(m, s.threads[t].read) == ReadOk(s, s.threads[t].read);
  }

  lemma {:induction false} ProcessKeeps(s: State, p: nat, x: Process)
    requires Inv(s) && ProcessOk(s, x)
    ensures Inv(SetProcess(s, p, x))
  {
  }

  lemma {:induction false} ReadKeeps(s: State, t: nat, r: Read)
    requires Inv(s) && t in s.threads && ReadOk(s, r)
    ensures Inv(SetRead(s, t, r))
  {
  }

  lemma {:induction false} FencingKeeps(s: State, s': State, p: nat, event: nat, effect: Effect)
    requires Inv(s) && p in s.processes && WorkNext(s, s', p, event, effect)
    requires s.processes[p].work.Fencing?
    ensures Inv(s')
  {
    hide Inv, RedisOk, Decimal.Value, Failed, DoBump;
    var x' := s'.processes[p];
    InvProcess(s, p);
    BumpGrows(s);
    DoKeeps(s, Bump);
    FailedKeeps(s, Bump, effect);
    if x'.work.Fenced? {
      ProcessKeeps(DoBump(s), p, x');
    } else if s' == SetProcess(s, p, x') {
      ProcessKeeps(s, p, x');
    } else {
      ProcessKeeps(Failed(s, Bump, effect), p, x');
    }
  }

  lemma {:induction false} StartingKeeps(s: State, s': State, p: nat, event: nat, effect: Effect)
    requires Inv(s) && p in s.processes && WorkNext(s, s', p, event, effect)
    requires s.processes[p].work.Starting?
    ensures Inv(s')
  {
    hide Inv, RedisOk, Decimal.Value, Failed, DoBump, Newest, Doubt;
    var x, x' := s.processes[p], s'.processes[p];
    InvProcess(s, p);
    OneMoreCall(x.calls, FenceSet);
    BumpGrows(s);
    DoKeeps(s, Bump);
    FailedKeeps(s, Bump, effect);
    if x.fenced {
      ProcessKeeps(s, p, x');
    } else if x'.fenced {
      ProcessKeeps(DoBump(s), p, x');
    } else {
      ProcessKeeps(Failed(s, Bump, effect), p, x');
    }
  }

  lemma {:induction false} NotingKeeps(s: State, s': State, p: nat, event: nat, effect: Effect)
    requires Inv(s) && p in s.processes && WorkNext(s, s', p, event, effect)
    requires s.processes[p].work.Noting?
    ensures Inv(s')
  {
    hide Inv, RedisOk, Decimal.Value, Failed, DoNote;
    var x' := s'.processes[p];
    var e := s.processes[p].work.event;
    InvProcess(s, p);
    NoteGrows(s, e);
    DoKeeps(s, Note(e));
    FailedKeeps(s, Note(e), effect);
    if x'.work.Noted? {
      ProcessKeeps(DoNote(s, e), p, x');
    } else {
      ProcessKeeps(Failed(s, Note(e), effect), p, x');
    }
  }

  lemma {:induction false} OneMoreCall(calls: seq<Call>, c: Call)
    ensures Newest(calls + [c]) == if c.FenceSet? then Newest(calls) else Max(Newest(calls), c.event)
    ensures Doubt(calls + [c]) ==
            match c {
              case FenceSet => 0
              case Bumped(_) => 0
              case Unbumped(e) => if e >= Doubt(calls) then 0 else Doubt(calls)
              case Unheard(e) => Max(Doubt(calls), e)
            }
  {
    assert (calls + [c])[..|calls|] == calls;
  }

  /** The end of a fence or an invalidation. */
  lemma {:induction false} FinishKeeps(s: State, s': State, p: nat, event: nat, effect: Effect)
    requires Inv(s) && p in s.processes && WorkNext(s, s', p, event, effect)
    requires s.processes[p].work.Fenced? || s.processes[p].work.Noted? || s.processes[p].work.Failing?
    ensures Inv(s')
  {
    hide Inv, RedisOk, Decimal.Value, Newest, Doubt, Remember;
    var x := s.processes[p];
    InvProcess(s, p);
    CursorBelowFence(s);
    var c := match x.work
      case Noted(e, bumped) => if bumped then Bumped(e) else Unbumped(e)
      case Failing(e) => Unheard(e)
      case _ => FenceSet;
    OneMoreCall(x.calls, c);
    ProcessKeeps(s, p, s'.processes[p]);
  }

  lemma {:induction false} WorkKeeps(s: State, s': State, p: nat, event: nat, effect: Effect)
    requires Inv(s) && p in s.processes && WorkNext(s, s', p, event, effect)
    ensures Inv(s')
  {
    hide Inv, RedisOk, Decimal.Value, Failed, DoBump, DoNote, Newest, Doubt, Finish;
    InvProcess(s, p);
    match s.processes[p].work {
      case Idle => ProcessKeeps(s, p, s'.processes[p]);
      case Fencing => FencingKeeps(s, s', p, event, effect);
      case Starting(e) => StartingKeeps(s, s', p, event, effect);
      case Noting(e) => NotingKeeps(s, s', p, event, effect);
      case _ => FinishKeeps(s, s', p, event, effect);
    }
  }

  lemma {:induction false} CursorBelowFence(s: State)
    requires RedisOk(s)
    ensures Decimal.Value(s.redis.cursor) <= Fence(s) <= s.committed
    ensures |s.floors| == s.redis.generation + 1
  {
  }

  lemma {:induction false} StoringKeeps(s: State, s': State, t: nat, effect: Effect)
    requires Inv(s) && t in s.threads && s.threads[t].read.Storing? && ReadNext(s, s', t, effect)
    ensures Inv(s')
  {
    hide Inv, RedisOk, Decimal.Value, Do, Failed;
    InvRead(s, t);
    var th := s.threads[t];
    var put, done := Put(Key(th.logical, th.read.generation), th.read.snapshot), Answered(th.read.snapshot);
    FailedKeeps(s, put, effect);
    DoKeeps(s, put);
    ReadKeeps(Do(s, put), t, done);
    ReadKeeps(Failed(s, put, effect), t, done);
  }

  lemma {:induction false} ReadStepKeeps(s: State, s': State, t: nat, effect: Effect)
    requires Inv(s) && t in s.threads && ReadNext(s, s', t, effect)
    ensures Inv(s')
  {
    hide Inv, RedisOk, Decimal.Value, Do, Failed;
    var th := s.threads[t];
    InvRead(s, t);
    CursorBelowFence(s);
    var r' := s'.threads[t].read;
    match th.read {
      case Began(need) => ReadKeeps(s, t, r');
      case HaveGeneration(g, need) =>
        assert r'.HaveValue? ==> FreshFor(s, g, r'.snapshot) by { InvEntries(s); }
        ReadKeeps(s, t, r');
      case HaveValue(g, v, need) => ReadKeeps(s, t, r');
      case Hit(g, v, need) => ReadKeeps(s, t, r');
      case Missed(g) =>
        FloorBelowCommitted(s, g);
        ReadKeeps(s, t, r');
      case Loaded(g, n) => ReadKeeps(s, t, r');
      case Storing(g, n) => StoringKeeps(s, s', t, effect);
      case Answered(_) =>
    }
  }

  lemma {:induction false} FloorBelowCommitted(s: State, g: nat)
    requires RedisOk(s) && g < |s.floors|
    ensures FreshFor(s, g, s.committed)
  {
    assert s.floors[g] <= s.floors[s.redis.generation];
  }

  lemma {:induction false} InvRead(s: State, t: nat)
    requires Inv(s) && t in s.threads
    ensures RedisOk(s) && ReadOk(s, s.threads[t].read)
  {
  }

  lemma {:induction false} InvEntries(s: State)
    requires Inv(s)
    ensures forall k | k in s.redis.entries :: FreshFor(s, k.generation, s.redis.entries[k])
  {
  }

  lemma {:induction false} InvProcess(s: State, p: nat)
    requires Inv(s) && p in s.processes
    ensures RedisOk(s) && ProcessOk(s, s.processes[p])
  {
  }

  lemma {:induction false} CommitGrows(s: State)
    requires Inv(s)
    ensures Inv(s.(committed := s.committed + 1))
  {
    GrowthKeeps(s, s.(committed := s.committed + 1));
  }

  lemma {:induction false} EvictGrows(s: State, k: Key)
    requires Inv(s)
    ensures Inv(s.(redis := s.redis.(entries := s.redis.entries - {k})))
  {
    GrowthKeeps(s, s.(redis := s.redis.(entries := s.redis.entries - {k})));
  }

  lemma {:induction false} OpenKeeps(s: State, t: nat, th: Thread)
    requires Inv(s) && ReadOk(s, th.read)
    ensures Inv(s.(threads := s.threads[t := th]))
  {
  }

  lemma {:induction false} StepKeeps(s: State, s': State, step: Step)
    requires Inv(s) && Next(s, s', step)
    ensures Inv(s')
  {
    hide Inv, RedisOk, WorkNext, ReadNext;
    InvParts(s);
    match step {
      case Commit => CommitGrows(s);
      case Evict(k) => EvictGrows(s, k);
      case Late(r) =>
        assert RequestOk(s, r) by { InvDelayed(s, r); }
        DoKeeps(s, r);
      case Join(p) => ProcessKeeps(s, p, FRESH);
      case Disable(p) =>
        InvProcess(s, p);
        ProcessKeeps(s, p, s.processes[p].(enabled := false));
      case WorkStep(p, e, effect) => WorkKeeps(s, s', p, e, effect);
      case Publish(p, e) =>
        InvProcess(s, p);
        ProcessKeeps(s, p, s'.processes[p]);
      case Open(t, p, l) =>
        InvProcess(s, p);
        CursorBelowFence(s);
        OpenKeeps(s, t, s'.threads[t]);
      case ReadStep(t, effect) => ReadStepKeeps(s, s', t, effect);
    }
  }

  lemma {:induction false} InvDelayed(s: State, r: Request)
    requires Inv(s) && r in s.delayed
    ensures RequestOk(s, r)
  {
  }

  // ----- whole runs

  /** Every finite interleaving from the empty state, with the step taken at each point. */
  predicate Run(states: seq<State>, steps: seq<Step>) {
    && |states| == |steps| + 1 && Init(states[0])
    && forall i | 0 <= i < |steps| :: Next(states[i], states[i + 1], steps[i])
  }

  lemma {:induction false} RunKeeps(states: seq<State>, steps: seq<Step>, i: nat)
    requires Run(states, steps) && i < |states|
    ensures Inv(states[i])
  {
    hide Inv, Next;
    if i == 0 {
      InitHolds(states[0]);
    } else {
      RunKeeps(states, steps, i - 1);
      StepKeeps(states[i - 1], states[i], steps[i - 1]);
    }
  }

  lemma {:induction false} InitHolds(s: State)
    requires Init(s)
    ensures Inv(s)
  {
  }

  /**
   No stale hit. When the final generation check of a read succeeds, the snapshot it is about to
   return reflects every event committed before the current generation was reached, hence every
   event whose invalidation Redis has evaluated, by whichever process.
   */
  lemma {:induction false} NoStaleHit(states: seq<State>, steps: seq<Step>, i: nat, t: nat)
    requires Run(states, steps) && i < |steps|
    requires t in states[i].threads && states[i].threads[t].read.HaveValue?
    requires t in states[i + 1].threads && states[i + 1].threads[t].read.Hit?
    ensures var s, hit := states[i], states[i + 1].threads[t].read;
            && |s.floors| == s.redis.generation + 1 && Decimal.Digits(s.redis.cursor)
            && hit.snapshot >= Fence(s) >= Decimal.Value(s.redis.cursor)
            && hit.snapshot >= hit.need
  {
    hide Next, Inv;
    RunKeeps(states, steps, i);
    InvRead(states[i], t);
    CursorBelowFence(states[i]);
    HitsCurrent(states[i], states[i + 1], steps[i], t);
  }

  /** A hit is for the generation that is current when the value is checked. */
  lemma {:induction false} HitsCurrent(s: State, s': State, step: Step, t: nat)
    requires Next(s, s', step) && t in s.threads && s.threads[t].read.HaveValue?
    requires t in s'.threads && s'.threads[t].read.Hit?
    ensures var r := s.threads[t].read; s'.threads[t].read == Hit(r.generation, r.snapshot, r.need) && r.generation == s.redis.generation
  {
    hide Do, DoBump, DoNote, Failed;
    match step {
      case Late(r) => DoLeavesThreads(s, r, Never);
      case WorkStep(p, e, effect) => WorkLeavesThreads(s, s', p, e, effect);
      case ReadStep(u, effect) =>
        var th := s.threads[u];
        if th.read.Storing? {
          DoLeavesThreads(s, Put(Key(th.logical, th.read.generation), th.read.snapshot), effect);
        }
      case _ =>
    }
  }

  lemma {:induction false} WorkLeavesThreads(s: State, s': State, p: nat, event: nat, effect: Effect)
    requires p in s.processes && WorkNext(s, s', p, event, effect)
    ensures s'.threads == s.threads
  {
    hide Do, DoBump, DoNote, Failed, Decimal.Newer, Decimal.Format, Finish;
    DoLeavesThreads(s, Bump, effect);
    if s.processes[p].work.Noting? {
      DoLeavesThreads(s, Note(s.processes[p].work.event), effect);
    }
  }


  predicate Serving(r: Read) {
    r.Began? || r.HaveGeneration? || r.HaveValue? || r.Hit?
  }

  /** A read keeps the requirement it began with. */
  lemma {:induction false} NeedIsCarried(states: seq<State>, steps: seq<Step>, i: nat, j: nat, t: nat)
    requires Run(states, steps) && i <= j < |states|
    requires t in states[i].threads
    ensures t in states[j].threads
    ensures Serving(states[j].threads[t].read) ==>
              Serving(states[i].threads[t].read) && states[j].threads[t].read.need == states[i].threads[t].read.need
    decreases j
  {
    hide Next, Init;
    if i < j {
      NeedIsCarried(states, steps, i, j - 1, t);
      StepCarriesNeed(states[j - 1], states[j], steps[j - 1], t);
    }
  }

  lemma {:induction false} StepCarriesNeed(s: State, s': State, step: Step, t: nat)
    requires Next(s, s', step) && t in s.threads
    ensures t in s'.threads
    ensures Serving(s'.threads[t].read) ==>
              Serving(s.threads[t].read) && s'.threads[t].read.need == s.threads[t].read.need
  {
    hide Do, DoBump, DoNote, Failed;
    match step {
      case Late(r) => DoLeavesThreads(s, r, Never);
      case WorkStep(p, e, effect) => WorkLeavesThreads(s, s', p, e, effect);
      case ReadStep(u, effect) =>
        var th := s.threads[u];
        if th.read.Storing? {
          DoLeavesThreads(s, Put(Key(th.logical, th.read.generation), th.read.snapshot), effect);
        }
      case _ =>
    }
  }

  lemma {:induction false} DoLeavesThreads(s: State, r: Request, effect: Effect)
    ensures Do(s, r).threads == s.threads && Failed(s, r, effect).threads == s.threads
    ensures DoBump(s).threads == s.threads && (r.Note? ==> DoNote(s, r.event).threads == s.threads)
  {
  }

  // ----- which notes bump the generation

  /** A note of an event that is not newer than the cursor does nothing; a newer one bumps once and keeps the entries. */
  lemma {:induction false} NoteInNumbers(s: State, e: nat)
    requires RedisOk(s)
    ensures e <= Decimal.Value(s.redis.cursor) ==> Do(s, Note(e)) == s
    ensures e > Decimal.Value(s.redis.cursor) ==>
              && Do(s, Note(e)).redis == Redis(s.redis.generation + 1, Decimal.Format(e), s.redis.entries)
              && Decimal.Canonical(Decimal.Format(e)) && Decimal.Value(Decimal.Format(e)) == e
  {
    hide Decimal.Newer, Decimal.Value, Decimal.Canonical, Decimal.Format;
    Decimal.FormatIsCanonical(e);
    Decimal.NewerIsGreater(Decimal.Format(e), s.redis.cursor);
  }

  /** The event whose note Redis evaluated in a step, heard or not, in time or late; 0 if there was none. */
  function NoteOf(s: State, s': State, step: Step): nat {
    match step
    case Late(r) => if r.Note? then r.event else 0
    case WorkStep(p, _, effect) =>
      if p in s.processes && p in s'.processes && s.processes[p].work.Noting? && (s'.processes[p].work.Noted? || effect.Now?)
      then s.processes[p].work.event else 0
    case _ => 0
  }

  /** The newest event noted in the first `i` steps. */
  function TopNote(states: seq<State>, steps: seq<Step>, i: nat): nat
    requires i <= |steps| < |states|
  {
    if i == 0 then 0 else Max(TopNote(states, steps, i - 1), NoteOf(states[i - 1], states[i], steps[i - 1]))
  }

  /** A step leaves the cursor alone unless it evaluates a note, and then does what the note does. */
  lemma {:induction false} StepNotes(s: State, s': State, step: Step)
    requires Inv(s) && Next(s, s', step)
    ensures var e := NoteOf(s, s', step);
            if e == 0 then s'.redis.cursor == s.redis.cursor else s'.redis == Do(s, Note(e)).redis
  {
    hide Inv, RedisOk, Decimal.Newer, Decimal.Format, DoPut, ReadNext, WorkNext, Finish;
    match step {
      case WorkStep(p, event, effect) => WorkNotes(s, s', p, event, effect);
      case ReadStep(t, effect) => ReadNotes(s, s', t, effect);
      case Late(r) =>
        InvDelayed(s, r);
        if r.Note? && r.event == 0 {
          assert s'.redis.cursor == s.redis.cursor by { NoteZero(s); }
        }
        if r.Put? {
          PutKeepsCursor(s, r.key, r.snapshot);
        }
      case _ =>
    }
  }

  lemma {:induction false} NoteZero(s: State)
    requires Inv(s)
    ensures Do(s, Note(0)) == s
  {
    NoteInNumbers(s, 0);
  }

  lemma {:induction false} PutKeepsCursor(s: State, k: Key, n: nat)
    ensures DoPut(s, k, n).redis.cursor == s.redis.cursor
  {
  }

  lemma {:induction false} WorkNotes(s: State, s': State, p: nat, event: nat, effect: Effect)
    requires Inv(s) && p in s.processes && WorkNext(s, s', p, event, effect)
    ensures var e := NoteOf(s, s', WorkStep(p, event, effect));
            if e == 0 then s'.redis.cursor == s.redis.cursor else s'.redis == Do(s, Note(e)).redis
  {
    hide Inv, RedisOk, Decimal.Newer, Decimal.Format, Finish, DoNote, Decimal.Value;
    InvProcess(s, p);
    if s.processes[p].work.Noting? {
      assert Do(s, Note(s.processes[p].work.event)) == DoNote(s, s.processes[p].work.event);
    }
  }

  lemma {:induction false} ReadNotes(s: State, s': State, t: nat, effect: Effect)
    requires t in s.threads && ReadNext(s, s', t, effect)
    ensures s'.redis.cursor == s.redis.cursor
  {
    hide DoNote, DoBump;
  }

  /** In every run the cursor is the newest event noted so far. */
  lemma {:induction false} CursorIsTop(states: seq<State>, steps: seq<Step>, i: nat)
    requires Run(states, steps) && i < |states|
    ensures RedisOk(states[i]) && Decimal.Value(states[i].redis.cursor) == TopNote(states, steps, i)
  {
    hide Next, Inv, RedisOk, Do, NoteOf, Decimal.Value;
    RunKeeps(states, steps, i);
    InvParts(states[i]);
    if i == 0 {
      FirstCursorIsZero(states[0]);
    } else {
      var s, s', step := states[i - 1], states[i], steps[i - 1];
      RunKeeps(states, steps, i - 1);
      CursorIsTop(states, steps, i - 1);
      StepNotes(s, s', step);
      NoteInNumbers(s, NoteOf(s, s', step));
    }
  }

  lemma {:induction false} FirstCursorIsZero(s: State)
    requires Init(s)
    ensures RedisOk(s) && Decimal.Value(s.redis.cursor) == 0
  {
  }

  /**
   In every run a note raises the generation, by one, exactly when its event exceeds every event
   noted before; otherwise Redis stays as it was. So no event bumps twice, whoever notes it again.
   */
  lemma {:induction false} NoteBumpsExactly(states: seq<State>, steps: seq<Step>, i: nat)
    requires Run(states, steps) && i < |steps| && NoteOf(states[i], states[i + 1], steps[i]) > 0
    ensures var e, r, r' := NoteOf(states[i], states[i + 1], steps[i]), states[i].redis, states[i + 1].redis;
            && r'.entries == r.entries
            && (if e > TopNote(states, steps, i) then r'.generation == r.generation + 1 else r' == r)
            && (forall j | 0 <= j < i && NoteOf(states[j], states[j + 1], steps[j]) >= e :: r' == r)
  {
    hide Next, Inv, RedisOk, Do, NoteOf, Decimal.Value;
    RunKeeps(states, steps, i);
    CursorIsTop(states, steps, i);
    StepNotes(states[i], states[i + 1], steps[i]);
    NoteInNumbers(states[i], NoteOf(states[i], states[i + 1], steps[i]));
    forall j | 0 <= j < i ensures NoteOf(states[j], states[j + 1], steps[j]) <= TopNote(states, steps, i) {
      TopIsHighest(states, steps, j, i);
    }
  }

  lemma {:induction false} TopIsHighest(states: seq<State>, steps: seq<Step>, j: nat, i: nat)
    requires j < i <= |steps| < |states|
    ensures NoteOf(states[j], states[j + 1], steps[j]) <= TopNote(states, steps, i)
  {
    hide NoteOf;
    if j + 1 < i {
      TopIsHighest(states, steps, j, i - 1);
    }
  }

  // ----- a failure bypasses the cache

  /** A fence or an invalidation that fails leaves the cache disabled, and one that succeeds enables it. */
  lemma {:induction false} FailureDisables(s: State, s': State, p: nat, event: nat, effect: Effect)
    requires p in s.processes && WorkNext(s, s', p, event, effect)
    ensures p in s'.processes
    ensures s.processes[p].work.Failing? ==> !s'.processes[p].enabled
    ensures s.processes[p].work.Fencing? && s'.processes[p].work.Idle? ==> !s'.processes[p].enabled
    ensures s.processes[p].work.Noted? || s.processes[p].work.Fenced? ==> s'.processes[p].enabled
    ensures s.processes[p].work.Noting? ==> s'.processes[p].work.Noted? || s'.processes[p].work.Failing?
  {
    hide DoBump, DoNote, Failed, Do, Decimal.Newer, Decimal.Format, Remember;
    DoLeavesProcesses(s, Bump, effect);
    if s.processes[p].work.Noting? {
      DoLeavesProcesses(s, Note(s.processes[p].work.event), effect);
    }
  }

  /** While it is disabled, a read neither looks at Redis nor stores: it is answered from the database. */
  lemma {:induction false} DisabledBypasses(s: State, s': State, t: nat, p: nat, l: string)
    requires Next(s, s', Open(t, p, l)) && !s.processes[p].enabled
    ensures s'.threads[t].read == Missed(0) && s'.redis == s.redis
  {
  }

  /** A read that missed is answered with every event committed when the database was read. */
  lemma {:induction false} MissReadsDatabase(s: State, s': State, t: nat, effect: Effect)
    requires t in s.threads && s.threads[t].read.Missed? && ReadNext(s, s', t, effect)
    ensures s'.threads[t].read == Loaded(s.threads[t].read.generation, s.committed)
  {
  }

  // ----- what the broker remembers

  function Invalidations(calls: seq<Call>): seq<nat> {
    if calls == [] then []
    else Invalidations(calls[..|calls| - 1]) + if calls[|calls| - 1].FenceSet? then [] else [calls[|calls| - 1].event]
  }

  function Recent(events: seq<nat>): seq<nat> {
    if |events| <= 256 then events else events[|events| - 256..]
  }

  /** The event a process is busy invalidating. */
  function Busy(w: Work): Option<nat> {
    match w
    case Starting(e) => Some(e)
    case Noting(e) => Some(e)
    case Noted(e, _) => Some(e)
    case Failing(e) => Some(e)
    case _ => None
  }

  predicate BrokerOk(x: Process) {
    && x.invalidated == Recent(Invalidations(x.calls))
    && (Busy(x.work).Some? ==> Busy(x.work).value !in x.invalidated)
    && (x.published > 0 ==> x.published in Invalidations(x.calls))
  }

  lemma {:induction false} OneMoreInvalidation(calls: seq<Call>, c: Call)
    ensures Invalidations(calls + [c]) == Invalidations(calls) + if c.FenceSet? then [] else [c.event]
  {
    assert (calls + [c])[..|calls|] == calls;
  }

  lemma {:induction false} FinishRemembers(x: Process, c: Call)
    requires BrokerOk(x) && !c.FenceSet? && c.event !in x.invalidated
    ensures BrokerOk(Finish(x, c))
  {
    hide Invalidations, Recent, Remember;
    OneMoreInvalidation(x.calls, c);
    OneMoreRecent(Invalidations(x.calls), c.event);
  }

  lemma {:induction false} OneMoreRecent(events: seq<nat>, e: nat)
    requires e !in Recent(events)
    ensures Recent(events + [e]) == Remember(Recent(events), e)
  {
    var n, kept, more := |events|, Recent(events), events + [e];
    if n >= 256 {
      var a, b := (kept + [e])[1..], more[n - 255..];
      assert |a| == |b| == 256;
      forall i | 0 <= i < 256 ensures a[i] == b[i] {
        assert a[i] == (kept + [e])[i + 1] && b[i] == more[n - 255 + i];
      }
      assert Recent(more) == b;
    }
  }

  lemma {:induction false} FenceRemembers(x: Process, y: Process)
    requires BrokerOk(x) && y.calls == x.calls + [FenceSet] && y.invalidated == x.invalidated && y.published == x.published
    requires Busy(y.work).Some? ==> Busy(y.work) == Busy(x.work)
    ensures BrokerOk(y)
  {
    OneMoreInvalidation(x.calls, FenceSet);
    assert Invalidations(x.calls) + [] == Invalidations(x.calls);
  }

  lemma {:induction false} WorkRemembers(s: State, s': State, p: nat, event: nat, effect: Effect)
    requires p in s.processes && BrokerOk(s.processes[p]) && WorkNext(s, s', p, event, effect)
    ensures p in s'.processes && BrokerOk(s'.processes[p])
    ensures s'.processes == s.processes[p := s'.processes[p]]
  {
    hide Do, DoBump, DoNote, Failed, Decimal.Newer, Decimal.Format, Finish, Invalidations, Recent, Remember;
    var x, x' := s.processes[p], s'.processes[p];
    DoLeavesProcesses(s, Bump, effect);
    match x.work {
      case Fenced(c) => FenceRemembers(x, x');
      case Starting(e) =>
        if x'.calls != x.calls {
          FenceRemembers(x, x');
        }
      case Noting(e) => DoLeavesProcesses(s, Note(e), effect);
      case Noted(e, bumped) => FinishRemembers(x, if bumped then Bumped(e) else Unbumped(e));
      case Failing(e) => FinishRemembers(x, Unheard(e));
      case _ =>
    }
  }

  lemma {:induction false} DoLeavesProcesses(s: State, r: Request, effect: Effect)
    ensures Do(s, r).processes == s.processes && Failed(s, r, effect).processes == s.processes
    ensures DoBump(s).processes == s.processes && (r.Note? ==> DoNote(s, r.event).processes == s.processes)
  {
  }

  lemma {:induction false} ReadLeavesProcesses(s: State, s': State, t: nat, effect: Effect)
    requires t in s.threads && ReadNext(s, s', t, effect)
    ensures s'.processes == s.processes
  {
    hide Do, Failed;
    var th := s.threads[t];
    if th.read.Storing? {
      DoLeavesProcesses(s, Put(Key(th.logical, th.read.generation), th.read.snapshot), effect);
    }
  }

  /**
   In every run a broker remembers exactly the last 256 events it invalidated, failed ones
   included, and works on none of them, so it repeats an event only after 256 others; and what it
   published last it had invalidated.
   */
  lemma {:induction false} BrokerRemembers(states: seq<State>, steps: seq<Step>, i: nat, p: nat)
    requires Run(states, steps) && i < |states| && p in states[i].processes
    ensures BrokerOk(states[i].processes[p])
  {
    hide Run, BrokerOk, WorkNext, ReadNext;
    RunStart(states, steps);
    if i > 0 {
      var s, s', step := states[i - 1], states[i], steps[i - 1];
      RunStepAt(states, steps, i - 1);
      if p in s.processes {
        BrokerRemembers(states, steps, i - 1, p);
      }
      match step {
        case WorkStep(q, e, effect) =>
          if p == q {
            WorkRemembers(s, s', p, e, effect);
          } else {
            OnlyThatProcess(s, s', q, e, effect);
          }
        case ReadStep(t, effect) => ReadLeavesProcesses(s, s', t, effect);
        case Late(r) => DoLeavesProcesses(s, r, Never);
        case Join(q) =>
          if p == q {
            NewBroker();
          }
        case Disable(q) => SameBroker(s.processes[q], s'.processes[q]);
        case Publish(q, e) => PublishRemembers(s, s', q, e);
        case _ =>
      }
    }
  }

  lemma {:induction false} NewBroker()
    ensures BrokerOk(FRESH)
  {
  }

  lemma {:induction false} SameBroker(x: Process, y: Process)
    requires y.calls == x.calls && y.invalidated == x.invalidated && y.work == x.work && y.published == x.published
    ensures BrokerOk(y) == BrokerOk(x)
  {
  }

  lemma {:induction false} PublishRemembers(s: State, s': State, q: nat, event: nat)
    requires q in s.processes && PublishNext(s, s', q, event)
    ensures s'.processes == s.processes[q := s'.processes[q]]
    ensures BrokerOk(s.processes[q]) ==> BrokerOk(s'.processes[q])
  {
    hide Recent;
    var x := s.processes[q];
    var k :| 0 <= k < |x.calls| && !x.calls[k].FenceSet? && x.calls[k].event == event;
    CalledIsInvalidated(x.calls, k);
  }

  lemma {:induction false} CalledIsInvalidated(calls: seq<Call>, k: nat)
    requires k < |calls| && !calls[k].FenceSet?
    ensures calls[k].event in Invalidations(calls)
  {
    var n := |calls| - 1;
    if k < n {
      CalledIsInvalidated(calls[..n], k);
    }
  }

  lemma {:induction false} OnlyThatProcess(s: State, s': State, q: nat, event: nat, effect: Effect)
    requires q in s.processes && WorkNext(s, s', q, event, effect)
    ensures forall p | p != q :: (p in s'.processes <==> p in s.processes) && (p in s.processes ==> s'.processes[p] == s.processes[p])
  {
    hide Do, DoBump, DoNote, Failed, Decimal.Newer, Decimal.Format, Finish;
    DoLeavesProcesses(s, Bump, effect);
    if s.processes[q].work.Noting? {
      DoLeavesProcesses(s, Note(s.processes[q].work.event), effect);
    }
  }

  lemma {:induction false} RunStart(states: seq<State>, steps: seq<Step>)
    requires Run(states, steps)
    ensures |states| == |steps| + 1 && states[0].processes == map[]
  {
  }

  lemma {:induction false} RunStepAt(states: seq<State>, steps: seq<Step>, i: nat)
    requires Run(states, steps) && i < |steps|
    ensures |states| == |steps| + 1 && Next(states[i], states[i + 1], steps[i])
  {
    hide Next;
  }

  // ----- when a process is fresh

  /** A later call makes up for the failed invalidation of event `f`. */
  predicate MakesUp(c: Call, f: nat) {
    c.FenceSet? || c.Bumped? || (c.Unbumped? && c.event >= f)
  }

  ghost predicate MadeUp(calls: seq<Call>, i: nat)
    requires i < |calls| && calls[i].Unheard?
  {
    exists j | i < j < |calls| :: MakesUp(calls[j], calls[i].event)
  }

  /** Some invalidation of `f` failed and nothing since makes up for it. */
  ghost predicate Doubtful(calls: seq<Call>, f: nat) {
    exists i | 0 <= i < |calls| && calls[i] == Unheard(f) :: !MadeUp(calls, i)
  }

  lemma {:induction false} MadeUpLater(calls: seq<Call>, c: Call, i: nat)
    requires i < |calls| && calls[i].Unheard?
    ensures MadeUp(calls + [c], i) <==> MadeUp(calls, i) || MakesUp(c, calls[i].event)
  {
    var all := calls + [c];
    assert all[|calls|] == c && forall j | 0 <= j < |calls| :: all[j] == calls[j];
    if MadeUp(calls, i) {
      var j :| i < j < |calls| && MakesUp(calls[j], calls[i].event);
      assert MakesUp(all[j], all[i].event);
    }
  }

  lemma {:induction false} DoubtfulLater(calls: seq<Call>, c: Call, f: nat)
    ensures Doubtful(calls + [c], f) <==> c == Unheard(f) || (Doubtful(calls, f) && !MakesUp(c, f))
  {
    hide MakesUp, MadeUp;
    var all := calls + [c];
    var n := |calls|;
    assert all[n] == c && forall j | 0 <= j < n :: all[j] == calls[j];
    if c == Unheard(f) {
      assert !MadeUp(all, n) by { LastIsNotMadeUp(all); }
    }
    if Doubtful(calls, f) {
      var i :| 0 <= i < n && calls[i] == Unheard(f) && !MadeUp(calls, i);
      MadeUpLater(calls, c, i);
      assert all[i] == Unheard(f);
    }
    if Doubtful(all, f) && c != Unheard(f) {
      var i :| 0 <= i < |all| && all[i] == Unheard(f) && !MadeUp(all, i);
      MadeUpLater(calls, c, i);
      assert calls[i] == Unheard(f);
    }
  }

  lemma {:induction false} LastIsNotMadeUp(calls: seq<Call>)
    requires calls != [] && calls[|calls| - 1].Unheard?
    ensures !MadeUp(calls, |calls| - 1)
  {
  }

  /** `Doubt` is the newest failed event that nothing made up for. */
  lemma {:induction false} DoubtIsNewest(calls: seq<Call>)
    ensures Doubt(calls) > 0 ==> Doubtful(calls, Doubt(calls))
    ensures forall f: nat | Doubtful(calls, f) :: f <= Doubt(calls)
    ensures Doubt(calls) <= Newest(calls)
  {
    hide Doubtful;
    if calls == [] {
      forall f: nat ensures !Doubtful(calls, f) {
        NothingDoubtful(f);
      }
    } else {
      var n := |calls| - 1;
      DoubtIsNewest(calls[..n]);
      assert calls == calls[..n] + [calls[n]];
      forall f: nat ensures Doubtful(calls, f) <==> calls[n] == Unheard(f) || (Doubtful(calls[..n], f) && !MakesUp(calls[n], f)) {
        DoubtfulLater(calls[..n], calls[n], f);
      }
    }
  }

  lemma {:induction false} NothingDoubtful(f: nat)
    ensures !Doubtful([], f)
  {
  }

  /** Some generation was reached after event `f` had been committed. */
  ghost predicate BumpedSince(states: seq<State>, i: nat, f: nat)
    requires i < |states|
  {
    exists k | 0 <= k < i :: f <= states[k].committed && states[k].redis.generation < states[k + 1].redis.generation
  }

  /** No new generation, or one new generation that covers everything committed. */
  predicate FloorsMove(s: State, s': State) {
    && s.committed <= s'.committed
    && (|| (s'.floors == s.floors && s'.redis.generation == s.redis.generation)
        || (s'.floors == s.floors + [s.committed] && s'.redis.generation == s.redis.generation + 1))
  }

  lemma {:induction false} DoFloors(s: State, r: Request, effect: Effect)
    ensures FloorsMove(s, Do(s, r)) && FloorsMove(s, Failed(s, r, effect)) && FloorsMove(s, DoBump(s))
    ensures r.Note? ==> FloorsMove(s, DoNote(s, r.event))
  {
    hide Decimal.Newer, Decimal.Format;
  }

  lemma {:induction false} WorkFloors(s: State, s': State, p: nat, event: nat, effect: Effect)
    requires p in s.processes && WorkNext(s, s', p, event, effect)
    ensures FloorsMove(s, s')
  {
    hide Do, DoBump, DoNote, Failed, Decimal.Newer, Decimal.Format, Finish, Admits, FloorsMove;
    DoFloors(s, Bump, effect);
    if s.processes[p].work.Noting? {
      DoFloors(s, Note(s.processes[p].work.event), effect);
    }
    forall m: State | FloorsMove(s, m) && s'.committed == m.committed && s'.floors == m.floors && s'.redis == m.redis
      ensures FloorsMove(s, s')
    {
      SameFloors(s, m, s');
    }
    SameFloors(s, s, s);
  }

  lemma {:induction false} SameFloors(s: State, m: State, s': State)
    requires m.committed == s'.committed && m.floors == s'.floors && m.redis.generation == s'.redis.generation
    ensures FloorsMove(s, s') == FloorsMove(s, m) && FloorsMove(s, s)
  {
  }

  lemma {:induction false} ReadFloors(s: State, s': State, t: nat, effect: Effect)
    requires t in s.threads && ReadNext(s, s', t, effect)
    ensures FloorsMove(s, s')
  {
    hide Do, Failed;
    var th := s.threads[t];
    if th.read.Storing? {
      DoFloors(s, Put(Key(th.logical, th.read.generation), th.read.snapshot), effect);
    }
  }

  lemma {:induction false} StepFloors(s: State, s': State, step: Step)
    requires Next(s, s', step)
    ensures FloorsMove(s, s')
  {
    hide Do, WorkNext, ReadNext, Need;
    match step {
      case Late(r) => DoFloors(s, r, Never);
      case WorkStep(p, e, effect) => WorkFloors(s, s', p, e, effect);
      case ReadStep(t, effect) => ReadFloors(s, s', t, effect);
      case _ =>
    }
  }

  lemma {:induction false} FenceIsBump(states: seq<State>, steps: seq<Step>, i: nat, f: nat)
    requires Run(states, steps) && i < |states| && f > 0
    ensures RedisOk(states[i]) && (f <= Fence(states[i]) <==> BumpedSince(states, i, f))
  {
    hide Next, Inv, RedisOk;
    RunKeeps(states, steps, i);
    InvParts(states[i]);
    if i == 0 {
      NoFence(states[0]);
    } else {
      var s, s' := states[i - 1], states[i];
      FenceIsBump(states, steps, i - 1, f);
      StepFloors(s, s', steps[i - 1]);
      CursorBelowFence(s);
      CursorBelowFence(s');
      if s'.redis.generation > s.redis.generation {
        assert Fence(s') == s.committed;
        assert f <= s.committed ==> BumpedSince(states, i, f);
      }
      if BumpedSince(states, i - 1, f) {
        var k :| 0 <= k < i - 1 && f <= states[k].committed && states[k].redis.generation < states[k + 1].redis.generation;
        assert BumpedSince(states, i, f);
      }
    }
  }

  lemma {:induction false} NoFence(s: State)
    requires Init(s)
    ensures RedisOk(s) && Fence(s) == 0
  {
  }

  /**
   Exactly when an enabled process shows everything it has invalidated: if and only if it made
   up for every invalidation it saw fail, or someone reached a new generation after the newest
   event in doubt had been committed. Older events after newer ones do no harm by themselves.
   */
  lemma {:induction false} FreshExactly(states: seq<State>, steps: seq<Step>, i: nat, p: nat)
    requires Run(states, steps) && i < |states| && p in states[i].processes
    ensures var calls := states[i].processes[p].calls;
            && RedisOk(states[i])
            && (Newest(calls) <= Fence(states[i]) <==> (forall f: nat | f > 0 && Doubtful(calls, f) :: BumpedSince(states, i, f)))
  {
    hide Inv, RedisOk, Next, Doubtful, BumpedSince;
    RunKeeps(states, steps, i);
    InvProcess(states[i], p);
    var calls := states[i].processes[p].calls;
    DoubtIsNewest(calls);
    forall f: nat | f > 0 ensures f <= Fence(states[i]) <==> BumpedSince(states, i, f) {
      FenceIsBump(states, steps, i, f);
    }
  }

  /**
   An enabled process with an event in doubt completed, after that event's invalidation failed,
   a call of an older event that bumped nothing: no other call enables it without making up.
   */
  lemma {:induction false} DoubtfulAndEnabled(states: seq<State>, steps: seq<Step>, i: nat, p: nat, f: nat) returns (a: nat, b: nat)
    requires Run(states, steps) && i < |states| && p in states[i].processes
    requires states[i].processes[p].enabled && Doubtful(states[i].processes[p].calls, f)
    ensures var calls := states[i].processes[p].calls;
            a < b < |calls| && calls[a] == Unheard(f) && calls[b].Unbumped? && calls[b].event < f
  {
    hide Inv, RedisOk, Next, Decimal.Value, Newest, Doubt;
    RunKeeps(states, steps, i);
    InvProcess(states[i], p);
    var calls := states[i].processes[p].calls;
    a :| 0 <= a < |calls| && calls[a] == Unheard(f) && !MadeUp(calls, a);
    b := |calls| - 1;
    assert !MakesUp(calls[b], f);
  }

  /** The event of a call that is no fence. */
  function EventOf(c: Call): nat {
    if c.FenceSet? then 0 else c.event
  }

  /** A process whose calls come in order, as its relay alone would make them, is never in doubt while enabled. */
  lemma {:induction false} InOrderIsFresh(calls: seq<Call>)
    requires forall a, b | 0 <= a < b < |calls| && !calls[b].FenceSet? :: EventOf(calls[a]) <= EventOf(calls[b])
    requires calls != [] && !calls[|calls| - 1].Unheard?
    ensures Doubt(calls) == 0
  {
    var n := |calls| - 1;
    if calls[n].Unbumped? {
      DoubtIsNewest(calls[..n]);
      NewestIsCalled(calls[..n]);
      if Newest(calls[..n]) > 0 {
        var k :| 0 <= k < n && EventOf(calls[..n][k]) == Newest(calls[..n]);
        assert calls[..n][k] == calls[k];
      }
    }
  }

  lemma {:induction false} NewestIsCalled(calls: seq<Call>)
    ensures Newest(calls) > 0 ==> exists k | 0 <= k < |calls| :: EventOf(calls[k]) == Newest(calls)
  {
    if calls != [] {
      var n := |calls| - 1;
      NewestIsCalled(calls[..n]);
      if Newest(calls) > 0 {
        if EventOf(calls[n]) == Newest(calls) {
        } else {
          var k :| 0 <= k < n && EventOf(calls[..n][k]) == Newest(calls[..n]);
          assert EventOf(calls[k]) == Newest(calls);
        }
      }
    }
  }

  /**
   A read begun in process `p` misses, or its hit reflects everything committed before the
   generation of that moment, hence before `p`'s fence; and every event whose invalidation `p`
   had completed when the read began (even with Redis down), unless such an event was in doubt
   and no generation had been reached since it was committed.
   */
  lemma {:induction false} ReadIsFresh(states: seq<State>, steps: seq<Step>, i: nat, j: nat, t: nat, p: nat, l: string)
    requires Run(states, steps) && i < j < |states| && steps[i] == Open(t, p, l)
    requires t in states[j].threads && states[j].threads[t].read.Hit?
    ensures p in states[i].processes && RedisOk(states[i])
    ensures var x, snapshot := states[i].processes[p], states[j].threads[t].read.snapshot;
            && x.fencedAt.Some? && snapshot >= Fence(states[i]) >= x.fencedAt.value
            && ((forall f: nat | f > 0 && Doubtful(x.calls, f) :: BumpedSince(states, i, f)) ==> snapshot >= Newest(x.calls))
  {
    hide RedisOk, Inv, Doubtful, BumpedSince, Newest, Doubt;
    assert Next(states[i], states[i + 1], steps[i]);
    NeedIsCarried(states, steps, i + 1, j, t);
    RunKeeps(states, steps, i);
    InvProcess(states[i], p);
    CursorBelowFence(states[i]);
    FreshExactly(states, steps, i, p);
    RunKeeps(states, steps, j);
    InvRead(states[j], t);
  }
}
