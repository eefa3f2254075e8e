/** A run in which the outbox's unique index has forgotten a firing. */
module OutboxRuns {
  import opened Domain
  import opened Outbox

  const TWIN := Pair(1, Email)

  lemma RelayedAndPruned(limit: nat) returns (states: seq<State>, steps: seq<Step>)
    requires limit >= 1
    ensures Behaviour(limit, states, steps) && |steps| == 5 && steps[0] == Commit(1, [Email], 0)
    ensures states[5] == State(map[], map[], 1, {TWIN}, {TWIN}, {0}, map[0 := TWIN])
  {
    var item, row := Item(0, TWIN), OutRow(TWIN, 0, None);
    var s1 := State(map[0 := row], map[], 1, {TWIN}, {}, {}, map[0 := TWIN]);
    var s2 := s1.(relays := map[0 := Relay([item], 0, false)]);
    var s3 := s2.(relays := map[0 := Relay([item], 1, false)], accepted := {TWIN}, relayed := {0});
    var s4 := s3.(relays := map[], rows := map[0 := row.(publishedAt := Some(0))]);
    var s5 := s4.(rows := map[]);
    steps := [Commit(1, [Email], 0), Start(0, [item]), Publish(0, Answered), Mark(0, 0, Answered), Prune(1)];
    states := [INIT, s1, s2, s3, s4, s5];
    assert Linked(limit, INIT, steps[0], s1) by { FreshCommit(INIT, 0); }
    assert Linked(limit, s1, steps[1], s2);
    assert Linked(limit, s2, steps[2], s3);
    assert InPrefix([item], 1, 0) by { assert [item][0].id == 0; }
    assert Marked(s3.rows, [item], 1, 0) == s4.rows;
    assert Linked(limit, s3, steps[3], s4);
    assert Linked(limit, s4, steps[4], s5);
  }

  lemma FreshCommit(s: State, now: int)
    requires !HasRow(s.rows, TWIN)
    ensures StageAll(s, 1, [Email], now) == StageOne(s, TWIN, now)
  {
    assert [Email][1..] == [];
    assert StageAll(StageOne(s, TWIN, now), 1, [], now) == StageOne(s, TWIN, now);
  }

  /** The unique index forgets what the prune removed: the same commit once more, after its row was
      relayed and pruned, stages a second row for the pair. The watcher draws a fresh event id per
      firing, so only a retry of the transaction from outside it gets here. */
  lemma RepeatedCommitStagesTwice(limit: nat) returns (states: seq<State>, steps: seq<Step>)
    requires limit >= 1
    ensures Behaviour(limit, states, steps) && |steps| == 6 && steps[0] == steps[5] == Commit(1, [Email], 0)
    ensures states[6].staged == map[0 := TWIN, 1 := TWIN] && !StagedOnce(states[6])
  {
    var before, taken := RelayedAndPruned(limit);
    var s := before[5];
    FreshCommit(s, 0);
    var s' := StageOne(s, TWIN, 0);
    states, steps := before + [s'], taken + [Commit(1, [Email], 0)];
    forall i | 0 <= i < |steps| ensures Linked(limit, states[i], steps[i], states[i + 1]) {
      if i < 5 { assert Linked(limit, before[i], taken[i], before[i + 1]); }
    }
    assert s'.staged[0] == s'.staged[1];
  }
}
