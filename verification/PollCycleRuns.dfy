/** Runs of the poll cycle that show what its lock does not give. */
module PollCycleRuns {
  import opened Domain
  import opened RedisLock
  import opened PollCycle

  // The renewal timer first fires after a third of the TTL.
  const RENEWAL_MS: nat := 40_000

  /** Some run with prompt replies throughout ends in `s`; `rejects` says whether workers may reject. */
  ghost predicate PromptlyReachable(s: State, rejects: bool) {
    exists states: seq<State>, steps: seq<Step> :: PromptRun(states, steps, rejects) && states[|steps|] == s
  }

  ghost predicate PromptRun(states: seq<State>, steps: seq<Step>, rejects: bool) {
    && Behaviour(states, steps)
    && (forall k :: 0 <= k < |states| ==> Prompt(states[k]))
    && (rejects || forall k :: 0 <= k < |steps| ==> !steps[k].Reject?)
  }

  lemma Begins(rejects: bool) returns (s: State)
    ensures s == Init(0) && PromptlyReachable(s, rejects)
  {
    s := Init(0);
    var states, steps: seq<Step> := [s], [];
    assert PromptRun(states, steps, rejects) && states[|steps|] == s;
  }

  lemma Then(s: State, step: Step, rejects: bool) returns (s': State)
    requires PromptlyReachable(s, rejects) && Enabled(s, step) && Prompt(Apply(s, step)) && (rejects || !step.Reject?)
    ensures s' == Apply(s, step) && PromptlyReachable(s', rejects)
  {
    s' := Apply(s, step);
    var states: seq<State>, steps: seq<Step> :| PromptRun(states, steps, rejects) && states[|steps|] == s;
    var states', steps' := states + [s'], steps + [step];
    forall i | 0 <= i < |steps'| ensures Linked(states'[i], steps'[i], states'[i + 1]) {
      if i < |steps| { assert Linked(states[i], steps[i], states[i + 1]); }
    }
    assert PromptRun(states', steps', rejects) && states'[|steps'|] == s';
  }

  // A cycle of three locations and two workers, one of which has taken a location.
  lemma OneTurn() returns (s: State)
    ensures PromptlyReachable(s, true) && s.clock == 0 && s.next == 1 && s.cycles.Keys == {0} && OwnedBy(s, 0)
    ensures s.cycles[0].phase == Polling && s.cycles[0].held && s.cycles[0].replies == []
    ensures s.cycles[0].workers == [Busy(0), Idle] && |s.cycles[0].queue| == 2
  {
    s := Begins(true);
    s := Then(s, Acquire, true);
    s := Then(s, Load(0, 3, 2), true);
    assert s.cycles[0].workers == [Idle, Idle];
    s := Then(s, Turn(0, 0), true);
  }

  // That worker rejects, and the lock is released.
  lemma RejectedAndReleased() returns (s: State)
    ensures PromptlyReachable(s, true) && s.clock == 0 && s.lock.None? && s.next == 1 && s.cycles.Keys == {0}
    ensures Starts(s, 0, 1) && s.cycles[0].phase == Closed
  {
    s := OneTurn();
    s := Then(s, Reject(0, 0), true);
    s := Then(s, Release(0, true), true);
  }

  /** Why no worker may reject beside a running one: the rejection releases the lock while the flag of
      the other worker still says held, so a second cycle acquires it and both take locations. */
  lemma RejectionLetsTwoCyclesStart() returns (s: State)
    ensures PromptlyReachable(s, true)
    ensures Starts(s, 0, 1) && Starts(s, 1, 0)
  {
    s := RejectedAndReleased();
    s := Then(s, Acquire, true);
    s := Then(s, Load(1, 1, 1), true);
  }

  lemma OneLocationTaken() returns (s: State)
    ensures PromptlyReachable(s, false) && s.next == 1 && s.cycles.Keys == {0} && OwnedBy(s, 0) && s.clock == 0
    ensures s.lock == Some(Lock(0, LOCK_TTL_MS))
    ensures s.cycles[0].workers == [Busy(0)] && s.cycles[0].held && s.cycles[0].phase == Polling
    ensures s.cycles[0].confirmed == 0 && s.cycles[0].replies == []
  {
    s := Begins(false);
    s := Then(s, Acquire, false);
    s := Then(s, Load(0, 1, 1), false);
    assert s.cycles[0].workers == [Idle];
    s := Then(s, Turn(0, 0), false);
  }

  // The first renewal cannot reach Redis, the flag drops, and the key lapses with the location in flight.
  lemma FlagDownWhileBusy() returns (s: State)
    ensures PromptlyReachable(s, false) && s.next == 1 && s.cycles.Keys == {0} && !Held(s) && s.clock == 160_000
    ensures s.cycles[0].workers == [Busy(0)] && !s.cycles[0].held
  {
    s := OneLocationTaken();
    s := Then(s, Tick(RENEWAL_MS), false);
    s := Then(s, Renew(0, false, false), false);
    assert s.cycles[0].replies == [Reply(false, RENEWAL_MS)];
    s := Then(s, Arrive(0, 0), false);
    s := Then(s, Tick(LOCK_TTL_MS), false);
  }

  /** What the lock does not give: with every reply prompt and no worker rejecting, a location taken
      before the flag dropped may still be in flight when the next cycle takes its own. Only work
      under a raised flag is exclusive, so the lock alone does not keep two cycles of a shard from
      writing at once. */
  lemma InFlightOutlivesTheLock() returns (s: State)
    ensures PromptlyReachable(s, false) && s.clock == 160_000
    ensures s.cycles.Keys == {0, 1} && s.cycles[0].workers == [Busy(0)] && s.cycles[1].workers == [Busy(0)]
  {
    s := FlagDownWhileBusy();
    s := Then(s, Acquire, false);
    assert s.cycles.Keys == {0, 1} && 1 in s.cycles;
    s := Then(s, Load(1, 1, 1), false);
    assert s.cycles[1].workers == [Idle];
    s := Then(s, Turn(1, 0), false);
  }
}
