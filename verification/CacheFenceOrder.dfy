/**
 What the broker's rule allows. A process may invalidate a newer event for a subscriber before
 its relay comes to an older one; if the newer invalidation failed and another process already
 noted the older event, the older one bumps nothing and enables the cache, which then shows a
 snapshot without the newer event.
 */
module CacheFenceOrder {
  import opened Prelude
  import opened CacheFence
  import Decimal

  /** A run and the state it ends in. */
  ghost predicate Reaches(states: seq<State>, steps: seq<Step>, s: State) {
    Run(states, steps) && |states| == |steps| + 1 && states[|steps|] == s
  }

  lemma {:induction false} Then(states: seq<State>, steps: seq<Step>, s: State, step: Step, next: State)
    returns (states': seq<State>, steps': seq<Step>)
    requires Reaches(states, steps, s) && Next(s, next, step)
    ensures Reaches(states', steps', next)
    ensures states' == states + [next] && steps' == steps + [step]
  {
    hide Next, Init;
    states', steps' := states + [next], steps + [step];
    forall i | 0 <= i < |steps'| ensures Next(states'[i], states'[i + 1], steps'[i]) {
      if i < |steps| {
        assert Next(states[i], states[i + 1], steps[i]);
      }
    }
  }

  lemma {:induction false} Cursors()
    ensures Decimal.Format(1) == "1" && Decimal.Newer("1", "0") && !Decimal.Newer("1", "1")
  {
    Decimal.FormatIsCanonical(1);
    Decimal.FormatIsCanonical(0);
    assert Decimal.Format(0) == "0";
    Decimal.NewerIsGreater("1", "0");
    Decimal.NewerIsGreater("1", "1");
  }

  /** A process that fenced the cache before any event. */
  function Ready(enabled: bool, work: Work, calls: seq<Call>, invalidated: seq<nat>): Process {
    Process(enabled, true, work, [FenceSet] + calls, Some(0), 0, invalidated)
  }

  const READY := Ready(true, Idle, [], [])

  /** Process `p` joins and fences. */
  lemma {:induction false} FenceOf(states: seq<State>, steps: seq<Step>, s: State, p: nat)
    returns (states': seq<State>, steps': seq<Step>)
    requires Reaches(states, steps, s) && s.committed == 0 && p !in s.processes
    ensures Reaches(states', steps', SetProcess(DoBump(s), p, READY))
  {
    hide Reaches;
    var work := WorkStep(p, 1, Never);
    var x := FRESH;
    states', steps' := Then(states, steps, s, Join(p), SetProcess(s, p, x));
    var s1 := SetProcess(s, p, x.(work := Fencing));
    states', steps' := Then(states', steps', SetProcess(s, p, x), work, s1);
    var s2 := SetProcess(DoBump(s), p, x.(work := Fenced(0)));
    states', steps' := Then(states', steps', s1, work, s2);
    assert READY.calls == x.calls + [FenceSet];
    states', steps' := Then(states', steps', s2, work, SetProcess(DoBump(s), p, READY));
  }

  /** Two processes; the first has invalidated event 1, the second nothing. */
  function Shared(committed: nat, entries: map<Key, nat>, first: Process, second: Process, threads: map<nat, Thread>): State {
    State(committed, Redis(3, "1", entries), [0, 0, 0, 1], {}, map[1 := first, 2 := second], threads)
  }

  const FIRST := Ready(true, Idle, [Bumped(1)], [1])

  lemma {:induction false} FirstEvent() returns (states: seq<State>, steps: seq<Step>)
    ensures Reaches(states, steps, Shared(1, map[], FIRST, READY, map[]))
  {
    hide Reaches, Decimal.Newer, Decimal.Format;
    Cursors();
    var s0 := State(0, Redis(0, "0", map[]), [0], {}, map[], map[]);
    states, steps := Start(s0);
    states, steps := FenceOf(states, steps, s0, 1);
    var s1 := SetProcess(DoBump(s0), 1, READY);
    states, steps := FenceOf(states, steps, s1, 2);
    var s2 := State(0, Redis(2, "0", map[]), [0, 0, 0], {}, map[1 := READY, 2 := READY], map[]);
    assert SetProcess(DoBump(s1), 2, READY) == s2;
    var s3 := s2.(committed := 1);
    states, steps := Then(states, steps, s2, Commit, s3);
    var work := WorkStep(1, 1, Never);
    var s4 := SetProcess(s3, 1, READY.(work := Starting(1)));
    states, steps := Then(states, steps, s3, work, s4);
    var s5 := SetProcess(s3, 1, READY.(work := Noting(1)));
    states, steps := Then(states, steps, s4, work, s5);
    var s6 := Shared(1, map[], READY.(work := Noted(1, true)), READY, map[]);
    assert s6 == SetProcess(DoNote(s5, 1), 1, READY.(work := Noted(1, true)));
    states, steps := Then(states, steps, s5, work, s6);
    assert FIRST == Finish(READY.(work := Noted(1, true)), Bumped(1));
    states, steps := Then(states, steps, s6, work, Shared(1, map[], FIRST, READY, map[]));
  }

  lemma {:induction false} Start(s: State) returns (states: seq<State>, steps: seq<Step>)
    requires Init(s)
    ensures Reaches(states, steps, s)
  {
    states, steps := [s], [];
  }

  const KEY := Key("status", 3)
  const STORED: map<Key, nat> := map[KEY := 1]

  /** A read of the first process finds nothing and stores a snapshot of event 1. */
  lemma {:induction false} Stored() returns (states: seq<State>, steps: seq<Step>)
    ensures Reaches(states, steps, Shared(1, STORED, FIRST, READY, map[0 := Thread(1, "status", Answered(1))]))
  {
    hide Reaches;
    states, steps := FirstEvent();
    var th := Thread(1, "status", Began(1));
    var read := ReadStep(0, Never);
    var s0 := Shared(1, map[], FIRST, READY, map[]);
    var s1 := Shared(1, map[], FIRST, READY, map[0 := th]);
    states, steps := Then(states, steps, s0, Open(0, 1, "status"), s1);
    var s2 := SetRead(s1, 0, HaveGeneration(3, 1));
    states, steps := Then(states, steps, s1, read, s2);
    var s3 := SetRead(s1, 0, Missed(3));
    states, steps := Then(states, steps, s2, read, s3);
    var s4 := SetRead(s1, 0, Loaded(3, 1));
    states, steps := Then(states, steps, s3, read, s4);
    var s5 := SetRead(s1, 0, Storing(3, 1));
    states, steps := Then(states, steps, s4, read, s5);
    states, steps := Then(states, steps, s5, read, Shared(1, STORED, FIRST, READY, map[0 := Thread(1, "status", Answered(1))]));
  }

  const ENDED: map<nat, Thread> := map[0 := Thread(1, "status", Answered(1))]

  /** A read of process `p` finds the stored snapshot. */
  lemma {:induction false} HitIn(states: seq<State>, steps: seq<Step>, s: State, p: nat)
    returns (states': seq<State>, steps': seq<Step>, i: nat)
    requires Reaches(states, steps, s) && p in s.processes && s.processes[p].enabled
    requires s.redis == Redis(3, "1", STORED) && s.floors == [0, 0, 0, 1] && 1 !in s.threads
    ensures var next := s.(threads := s.threads[1 := Thread(p, "status", Hit(3, 1, 1))]);
            Reaches(states', steps', next) && i < |steps'| && steps'[i] == Open(1, p, "status") && states'[i] == s
  {
    hide Reaches;
    i := |steps|;
    assert |states| == |steps| + 1 && states[i] == s by { ReachesEnd(states, steps, s); }
    var read := ReadStep(1, Never);
    var s1 := s.(threads := s.threads[1 := Thread(p, "status", Began(1))]);
    states', steps' := Then(states, steps, s, Open(1, p, "status"), s1);
    var s2 := SetRead(s1, 1, HaveGeneration(3, 1));
    states', steps' := Then(states', steps', s1, read, s2);
    var s3 := SetRead(s1, 1, HaveValue(3, 1, 1));
    states', steps' := Then(states', steps', s2, read, s3);
    var s4 := SetRead(s1, 1, Hit(3, 1, 1));
    states', steps' := Then(states', steps', s3, read, s4);
    assert s4 == s.(threads := s.threads[1 := Thread(p, "status", Hit(3, 1, 1))]);
  }

  lemma {:induction false} ReachesEnd(states: seq<State>, steps: seq<Step>, s: State)
    requires Reaches(states, steps, s)
    ensures |states| == |steps| + 1 && states[|steps|] == s
  {
  }

  /** Hits happen: the first process reads its own snapshot, with nothing in doubt. */
  lemma {:induction false} FreshHit() returns (states: seq<State>, steps: seq<Step>, i: nat)
    ensures Run(states, steps) && i < |steps| && steps[i] == Open(1, 1, "status")
    ensures |states| == |steps| + 1
    ensures var s := states[|steps|];
            && 1 in s.threads && s.threads[1].read == Hit(3, 1, 1)
            && 1 in states[i].processes && Newest(states[i].processes[1].calls) == 1 && Doubt(states[i].processes[1].calls) == 0
  {
    hide Run;
    var states0, steps0 := Stored();
    states, steps, i := HitIn(states0, steps0, Shared(1, STORED, FIRST, READY, ENDED), 1);
    OneMoreCall([FenceSet], Bumped(1));
    assert FIRST.calls == [FenceSet] + [Bumped(1)];
    OneMoreCall([], FenceSet);
    assert [] + [FenceSet] == [FenceSet];
  }

  const SECOND := Ready(true, Idle, [Unheard(2), Unbumped(1)], [2, 1])

  const SHAKEN := Ready(false, Idle, [Unheard(2)], [2])

  /** A subscriber of the second process, whose cursor is at event 1, has event 2 invalidated; that call fails. */
  lemma {:induction false} SubscriberFails() returns (states: seq<State>, steps: seq<Step>)
    ensures Reaches(states, steps, Shared(2, STORED, FIRST, SHAKEN, ENDED))
  {
    hide Reaches;
    states, steps := Stored();
    var s0 := Shared(1, STORED, FIRST, READY, ENDED);
    var s1 := Shared(2, STORED, FIRST, READY, ENDED);
    states, steps := Then(states, steps, s0, Commit, s1);
    var subscriber := WorkStep(2, 2, Never);
    var s2 := Shared(2, STORED, FIRST, READY.(work := Failing(2)), ENDED);
    states, steps := Then(states, steps, s1, subscriber, s2);
    assert SHAKEN == Finish(READY.(work := Failing(2)), Unheard(2));
    states, steps := Then(states, steps, s2, subscriber, Shared(2, STORED, FIRST, SHAKEN, ENDED));
  }

  /** Then its relay comes to event 1, which the broker admits. */
  lemma {:induction false} RelayCatchesUp() returns (states: seq<State>, steps: seq<Step>)
    ensures Reaches(states, steps, Shared(2, STORED, FIRST, SECOND, ENDED))
  {
    hide Reaches, Decimal.Newer, Decimal.Format;
    states, steps := SubscriberFails();
    var relay := WorkStep(2, 1, Never);
    var s0 := Shared(2, STORED, FIRST, SHAKEN, ENDED);
    var s1 := Shared(2, STORED, FIRST, SHAKEN.(work := Starting(1)), ENDED);
    states, steps := Then(states, steps, s0, relay, s1);
    var s2 := Shared(2, STORED, FIRST, SHAKEN.(work := Noting(1)), ENDED);
    states, steps := Then(states, steps, s1, relay, s2);
    var s3 := Shared(2, STORED, FIRST, SHAKEN.(work := Noted(1, false)), ENDED);
    assert Next(s2, s3, relay) by { Cursors(); }
    states, steps := Then(states, steps, s2, relay, s3);
    assert SECOND == Finish(SHAKEN.(work := Noted(1, false)), Unbumped(1));
    states, steps := Then(states, steps, s3, relay, Shared(2, STORED, FIRST, SECOND, ENDED));
  }

  /** The hit that follows lacks event 2, whose invalidation the process had completed. */
  lemma {:induction false} SubscriberAheadIsStale() returns (states: seq<State>, steps: seq<Step>, i: nat)
    ensures Run(states, steps) && i < |steps| && steps[i] == Open(1, 2, "status")
    ensures |states| == |steps| + 1
    ensures var s := states[|steps|];
            && 1 in s.threads && s.threads[1].read.Hit? && 2 in states[i].processes
            && s.threads[1].read.snapshot < Newest(states[i].processes[2].calls)
            && Doubtful(states[i].processes[2].calls, 2) && !BumpedSince(states, i, 2)
  {
    hide Run, Doubtful, BumpedSince, Newest, Doubt;
    var states0, steps0 := RelayCatchesUp();
    var s := Shared(2, STORED, FIRST, SECOND, ENDED);
    states, steps, i := HitIn(states0, steps0, s, 2);
    SecondIsInDoubt();
    FenceIsBump(states, steps, i, 2);
  }

  lemma {:induction false} SecondIsInDoubt()
    ensures Newest(SECOND.calls) == 2 && Doubtful(SECOND.calls, 2)
  {
    hide Doubtful, Newest, Doubt;
    var c0: seq<Call>, c1, c2 := [], [FenceSet], [FenceSet, Unheard(2)];
    assert c1 == c0 + [FenceSet] && c2 == c1 + [Unheard(2)] && SECOND.calls == c2 + [Unbumped(1)];
    OneMoreCall(c0, FenceSet);
    OneMoreCall(c1, Unheard(2));
    OneMoreCall(c2, Unbumped(1));
    assert Newest(c0) == 0 by { NoCalls(); }
    DoubtfulLater(c1, Unheard(2), 2);
    DoubtfulLater(c2, Unbumped(1), 2);
  }

  lemma {:induction false} NoCalls()
    ensures Newest([]) == 0
  {
  }
}
