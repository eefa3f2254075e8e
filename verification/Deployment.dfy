/** The cooldown over a whole deployment: shards poll concurrently, each cycle decides on the rows it
    read at its start and commits later, users create, edit and delete triggers in between, and any
    cycle may die at any point. */
module Deployment {
  import opened Domain
  import opened Location
  import opened Sharding
  import opened TriggerStateMachine

  datatype Row = Row(trigger: Trigger, bucket: nat, active: bool)

  // What a cycle read, what it has still to evaluate, and the firings it decided but has not
  // committed, with the instant of the decision.
  datatype Cycle = Cycle(shard: nat, read: map<nat, Row>, pending: set<nat>, decided: map<nat, int>)

  datatype Firing = Firing(id: nat, decidedAt: int, storedAt: int, cooldownMin: int)

  // `used` holds every trigger id ever created; `log` the committed firings.
  datatype State = State(clock: int, rows: map<nat, Row>, used: set<nat>, cycles: map<nat, Cycle>, log: seq<Firing>)

  datatype Step =
    | Tick(elapsed: nat)
    | Create(id: nat, bucket: nat, cooldownMin: nat, active: bool)
    | Edit(id: nat, cooldownMin: nat, active: bool)
    | Delete(id: nat)
    | Begin(c: nat, shard: nat)
    | Evaluate(c: nat, id: nat, matched: bool, quiet: bool)
    | Commit(c: nat, id: nat, stored: int, outcome: Outcome)
    | End(c: nat)

  function Init(clock: int): State {
    State(clock, map[], {}, map[], [])
  }

  predicate Enabled(count: nat, s: State, step: Step) {
    match step
    case Tick(_) => true
    case Create(id, bucket, _, _) => id !in s.used && bucket < LOCATION_BUCKETS
    case Edit(id, _, _) => id in s.rows
    case Delete(id) => id in s.rows
    case Begin(c, shard) => c !in s.cycles && shard < count
    case Evaluate(c, id, _, _) => c in s.cycles && id in s.cycles[c].pending && id in s.cycles[c].read
    case Commit(c, id, stored, _) =>
      c in s.cycles && id in s.cycles[c].decided && id in s.cycles[c].read
      && s.cycles[c].decided[id] <= stored <= s.clock
    case End(c) => c in s.cycles
  }

  // `findActive` restricted to the shard's buckets.
  function FindActive(count: nat, rows: map<nat, Row>, shard: nat): map<nat, Row> {
    map id | id in rows && rows[id].active && Selects(shard, count, rows[id].bucket) :: rows[id]
  }

  function Evaluated(s: State, c: nat, id: nat, matched: bool, quiet: bool): State
    requires c in s.cycles && id in s.cycles[c].read
  {
    var cycle := s.cycles[c];
    var decision := Decide(cycle.read[id].trigger, matched, s.clock, quiet);
    var rest := cycle.(pending := cycle.pending - {id});
    if decision == Fire then
      s.(cycles := s.cycles[c := rest.(decided := cycle.decided[id := s.clock])])
    else
      // The observation is written; only a re-arm touches the trigger's state.
      s.(cycles := s.cycles[c := rest],
         rows := if decision == Rearm && id in s.rows
                 then s.rows[id := s.rows[id].(trigger := s.rows[id].trigger.(state := Armed))] else s.rows)
  }

  function Committed(s: State, c: nat, id: nat, stored: int, outcome: Outcome): State
    requires c in s.cycles && id in s.cycles[c].decided && id in s.cycles[c].read
  {
    var cycle := s.cycles[c];
    var after := s.(cycles := s.cycles[c := cycle.(decided := cycle.decided - {id})]);
    if id in s.rows && outcome.Lands() then
      after.(rows := s.rows[id := s.rows[id].(trigger := Recorded(s.rows[id].trigger, Fire, stored))],
             log := s.log + [Firing(id, cycle.decided[id], stored, cycle.read[id].trigger.cooldownMin)])
    else after
  }

  function Apply(count: nat, s: State, step: Step): State
    requires Enabled(count, s, step)
  {
    match step
    case Tick(elapsed) => s.(clock := s.clock + elapsed)
    case Create(id, bucket, cooldownMin, active) =>
      s.(rows := s.rows[id := Row(Trigger(Armed, None, cooldownMin), bucket, active)], used := s.used + {id})
    case Edit(id, cooldownMin, active) =>
      var row := s.rows[id];
      s.(rows := s.rows[id := row.(active := active, trigger := row.trigger.(cooldownMin := cooldownMin))])
    case Delete(id) => s.(rows := s.rows - {id})
    case Begin(c, shard) =>
      var read := FindActive(count, s.rows, shard);
      s.(cycles := s.cycles[c := Cycle(shard, read, read.Keys, map[])])
    case Evaluate(c, id, matched, quiet) => Evaluated(s, c, id, matched, quiet)
    case Commit(c, id, stored, outcome) => Committed(s, c, id, stored, outcome)
    case End(c) => s.(cycles := s.cycles - {c})
  }

  ghost predicate Linked(count: nat, s: State, step: Step, s': State) {
    Enabled(count, s, step) && s' == Apply(count, s, step)
  }

  ghost predicate Behaviour(count: nat, states: seq<State>, steps: seq<Step>) {
    && |states| == |steps| + 1 && states[0] == Init(states[0].clock)
    && forall i :: 0 <= i < |steps| ==> Linked(count, states[i], steps[i], states[i + 1])
  }

  // No two cycles of one shard are at work at once. The cycle lock makes that likely, not certain:
  // `PollCycleRuns` has a run in which a location still in flight outlives its lock, and `Watcher`
  // derives the absence of overlap from conditions on the lock.
  ghost predicate NoOverlap(s: State) {
    forall c, d :: c in s.cycles && d in s.cycles && s.cycles[c].shard == s.cycles[d].shard ==> c == d
  }

  // A row a cycle still has to write about reads as it did when the cycle started, as far as the
  // last firing goes.
  ghost predicate Current(count: nat, s: State, cycle: Cycle, id: nat) {
    && id in cycle.read && id in s.used && Selects(cycle.shard, count, cycle.read[id].bucket)
    && cycle.read[id].trigger.cooldownMin >= 0
    && (id in s.rows ==>
          && s.rows[id].bucket == cycle.read[id].bucket
          && s.rows[id].trigger.lastFiredAt == cycle.read[id].trigger.lastFiredAt)
  }

  ghost predicate CycleOk(count: nat, s: State, cycle: Cycle) {
    && cycle.shard < count && cycle.pending !! cycle.decided.Keys
    && (forall id :: id in cycle.pending || id in cycle.decided ==> Current(count, s, cycle, id))
    && (forall id :: id in cycle.decided ==>
          cycle.decided[id] <= s.clock && CooldownElapsed(cycle.read[id].trigger, cycle.decided[id]))
  }

  // The stored instant bounds every firing on record.
  ghost predicate RowOk(s: State, id: nat)
    requires id in s.rows
  {
    && id in s.used && s.rows[id].bucket < LOCATION_BUCKETS && s.rows[id].trigger.cooldownMin >= 0
    && forall k :: 0 <= k < |s.log| && s.log[k].id == id ==>
         s.rows[id].trigger.lastFiredAt.Some? && s.log[k].storedAt <= s.rows[id].trigger.lastFiredAt.value
  }

  /** Of any two firings of a trigger, the later was decided at least its cooldown after the instant
      stored with the earlier. */
  ghost predicate CooldownKept(log: seq<Firing>) {
    forall j, k :: 0 <= j < k < |log| && log[j].id == log[k].id ==>
      log[k].decidedAt - log[j].storedAt >= log[k].cooldownMin * 60_000
  }

  ghost predicate LogOk(s: State) {
    && (forall k :: 0 <= k < |s.log| ==> s.log[k].id in s.used)
    && CooldownKept(s.log)
  }

  ghost predicate Inv(count: nat, s: State) {
    && (forall c :: c in s.cycles ==> CycleOk(count, s, s.cycles[c]))
    && (forall id :: id in s.rows ==> RowOk(s, id))
    && LogOk(s)
  }

  predicate Awaits(cycle: Cycle, id: nat) {
    id in cycle.pending || id in cycle.decided
  }

  /** The one step that leaves a cycle with a stale picture: a firing lands and moves the last-fired
      instant of a row another cycle has read and not finished with. */
  ghost predicate Clobbers(s: State, step: Step) {
    && step.Commit? && step.outcome.Lands() && step.id in s.rows
    && s.rows[step.id].trigger.lastFiredAt != Some(step.stored)
    && exists d :: d in s.cycles && d != step.c && Awaits(s.cycles[d], step.id)
  }

  // Only a cycle of the row's own shard can be about to write it.
  lemma NoOverlapNeverClobbers(count: nat, s: State, step: Step)
    requires count >= 1 && Inv(count, s) && NoOverlap(s) && Enabled(count, s, step)
    ensures !Clobbers(s, step)
  {
    if Clobbers(s, step) {
      var c, id := step.c, step.id;
      var d :| d in s.cycles && d != c && Awaits(s.cycles[d], id);
      assert CycleOk(count, s, s.cycles[c]) && CycleOk(count, s, s.cycles[d]);
      assert Current(count, s, s.cycles[c], id) && Current(count, s, s.cycles[d], id);
      assert RowOk(s, id);
      ExactlyOneShard(count, s.rows[id].bucket);
      assert false;
    }
  }

  lemma CommitKeeps(count: nat, s: State, c: nat, id: nat, stored: int, outcome: Outcome, s': State)
    requires Inv(count, s) && !Clobbers(s, Commit(c, id, stored, outcome))
    requires Enabled(count, s, Commit(c, id, stored, outcome)) && s' == Committed(s, c, id, stored, outcome)
    ensures Inv(count, s')
  {
    var cycle := s.cycles[c];
    assert CycleOk(count, s, cycle) && Current(count, s, cycle, id);
    forall d | d in s'.cycles ensures CycleOk(count, s', s'.cycles[d]) {
      assert CycleOk(count, s, s.cycles[d]);
      forall x | Awaits(s'.cycles[d], x) ensures Current(count, s', s'.cycles[d], x) {
        assert Awaits(s.cycles[d], x) && Current(count, s, s.cycles[d], x);
      }
    }
    if id in s.rows && outcome.Lands() {
      CommitLog(count, s, cycle, id, stored, s');
    } else {
      forall x | x in s'.rows ensures RowOk(s', x) { assert x in s.rows ==> RowOk(s, x); }
    }
  }

  lemma ClobberBreaks(count: nat, s: State, c: nat, id: nat, stored: int, outcome: Outcome, s': State)
    requires Inv(count, s) && Clobbers(s, Commit(c, id, stored, outcome))
    requires Enabled(count, s, Commit(c, id, stored, outcome)) && s' == Committed(s, c, id, stored, outcome)
    ensures !Inv(count, s')
  {
    var d :| d in s.cycles && d != c && Awaits(s.cycles[d], id);
    assert CycleOk(count, s, s.cycles[d]) && Current(count, s, s.cycles[d], id);
    assert s'.cycles[d] == s.cycles[d] && !Current(count, s', s.cycles[d], id);
    assert !CycleOk(count, s', s'.cycles[d]);
  }

  lemma CommitLog(count: nat, s: State, cycle: Cycle, id: nat, stored: int, s': State)
    requires Inv(count, s) && CycleOk(count, s, cycle) && id in s.rows && id in cycle.decided
    requires Current(count, s, cycle, id) && cycle.decided[id] <= stored
    requires s'.rows == s.rows[id := s.rows[id].(trigger := Recorded(s.rows[id].trigger, Fire, stored))]
    requires s'.log == s.log + [Firing(id, cycle.decided[id], stored, cycle.read[id].trigger.cooldownMin)]
    requires s'.used == s.used
    ensures LogOk(s') && forall x :: x in s'.rows ==> RowOk(s', x)
  {
    assert RowOk(s, id);
    forall k | 0 <= k < |s.log| && s.log[k].id == id
      ensures cycle.decided[id] - s.log[k].storedAt >= cycle.read[id].trigger.cooldownMin * 60_000
    {
      assert CooldownElapsed(cycle.read[id].trigger, cycle.decided[id]);
    }
    forall x | x in s'.rows ensures RowOk(s', x) { assert x in s.rows ==> RowOk(s, x); }
  }

  // Neither the bucket nor the last firing of a row changes, and new rows are new ids.
  ghost predicate RowsKept(s: State, s': State) {
    && s'.log == s.log && s.used <= s'.used && s.clock <= s'.clock
    && forall id :: id in s'.rows ==>
         && id in s'.used && s'.rows[id].bucket < LOCATION_BUCKETS && s'.rows[id].trigger.cooldownMin >= 0
         && (if id in s.rows
             then s'.rows[id].bucket == s.rows[id].bucket
                  && s'.rows[id].trigger.lastFiredAt == s.rows[id].trigger.lastFiredAt
             else id !in s.used)
  }

  lemma CycleKept(count: nat, s: State, s': State, cycle: Cycle)
    requires CycleOk(count, s, cycle) && RowsKept(s, s')
    ensures CycleOk(count, s', cycle)
  {
    forall x | x in cycle.pending || x in cycle.decided ensures Current(count, s', cycle, x) {
      assert Current(count, s, cycle, x);
    }
  }

  lemma RowsKeptOk(count: nat, s: State, s': State)
    requires Inv(count, s) && RowsKept(s, s')
    ensures LogOk(s') && forall x :: x in s'.rows ==> RowOk(s', x)
  {
    forall x | x in s'.rows ensures RowOk(s', x) { assert x in s.rows ==> RowOk(s, x); }
  }

  lemma UserStep(count: nat, s: State, step: Step, s': State)
    requires Inv(count, s) && Enabled(count, s, step) && s' == Apply(count, s, step)
    requires step.Tick? || step.Create? || step.Edit? || step.Delete? || step.End?
    ensures Inv(count, s')
  {
    assert RowsKept(s, s');
    RowsKeptOk(count, s, s');
    forall d | d in s'.cycles ensures CycleOk(count, s', s'.cycles[d]) { CycleKept(count, s, s', s.cycles[d]); }
  }

  lemma BeginStep(count: nat, s: State, c: nat, shard: nat, s': State)
    requires Inv(count, s) && Enabled(count, s, Begin(c, shard)) && s' == Apply(count, s, Begin(c, shard))
    ensures Inv(count, s')
  {
    assert RowsKept(s, s');
    RowsKeptOk(count, s, s');
    forall d | d in s'.cycles ensures CycleOk(count, s', s'.cycles[d]) {
      if d != c { CycleKept(count, s, s', s.cycles[d]); }
    }
  }

  lemma EvaluateStep(count: nat, s: State, c: nat, id: nat, matched: bool, quiet: bool, s': State)
    requires Inv(count, s) && Enabled(count, s, Evaluate(c, id, matched, quiet))
    requires s' == Evaluated(s, c, id, matched, quiet)
    ensures Inv(count, s')
  {
    assert RowsKept(s, s');
    RowsKeptOk(count, s, s');
    forall d | d in s'.cycles ensures CycleOk(count, s', s'.cycles[d]) {
      CycleKept(count, s, s', s.cycles[d]);
      if d == c {
        forall x | x in s'.cycles[c].pending || x in s'.cycles[c].decided
          ensures Current(count, s', s'.cycles[c], x) { assert Current(count, s', s.cycles[c], x); }
      }
    }
  }

  lemma StepKeeps(count: nat, s: State, step: Step, s': State)
    requires Inv(count, s) && !Clobbers(s, step) && Enabled(count, s, step) && s' == Apply(count, s, step)
    ensures Inv(count, s')
  {
    match step
    case Begin(c, shard) => BeginStep(count, s, c, shard, s');
    case Evaluate(c, id, matched, quiet) => EvaluateStep(count, s, c, id, matched, quiet, s');
    case Commit(c, id, stored, outcome) => CommitKeeps(count, s, c, id, stored, outcome, s');
    case _ => UserStep(count, s, step, s');
  }

  /** Exactly when a step keeps every cycle's picture current, and with it the cooldown on record. */
  lemma CurrentKeptIff(count: nat, s: State, step: Step)
    requires Inv(count, s) && Enabled(count, s, step)
    ensures Inv(count, Apply(count, s, step)) <==> !Clobbers(s, step)
  {
    if Clobbers(s, step) {
      ClobberBreaks(count, s, step.c, step.id, step.stored, step.outcome, Apply(count, s, step));
    } else {
      StepKeeps(count, s, step, Apply(count, s, step));
    }
  }

  lemma {:induction false} InvAlways(count: nat, states: seq<State>, steps: seq<Step>, i: nat)
    requires count >= 1 && Behaviour(count, states, steps) && i < |states|
    requires forall n :: 0 <= n < |steps| ==> NoOverlap(states[n]) || !Clobbers(states[n], steps[n])
    ensures Inv(count, states[i])
  {
    if i > 0 {
      InvAlways(count, states, steps, i - 1);
      assert Linked(count, states[i - 1], steps[i - 1], states[i]);
      if NoOverlap(states[i - 1]) {
        NoOverlapNeverClobbers(count, states[i - 1], steps[i - 1]);
      }
      StepKeeps(count, states[i - 1], steps[i - 1], states[i]);
    }
  }

  /** Cooldown over whole deployments: however the condition flaps and however users edit, any two
      committed firings of one trigger are separated so that the later decision comes at least the
      cooldown it was decided under after the instant stored with the earlier firing. Cycles of a
      shard may overlap as long as none commits a firing of a row another still has before it. */
  lemma CooldownHolds(count: nat, states: seq<State>, steps: seq<Step>, i: nat, j: nat, k: nat)
    requires count >= 1 && Behaviour(count, states, steps) && i < |states|
    requires forall n :: 0 <= n < |steps| ==> NoOverlap(states[n]) || !Clobbers(states[n], steps[n])
    requires j < k < |states[i].log| && states[i].log[j].id == states[i].log[k].id
    ensures states[i].log[k].decidedAt >= states[i].log[j].storedAt + states[i].log[k].cooldownMin * 60_000
  {
    InvAlways(count, states, steps, i);
  }

  // ---- Exactly when the cooldown is kept, with no assumption on overlap ----

  /** A firing that lands still stands against the row as it is now, not as it was read. */
  predicate Stands(s: State, step: Step) {
    step.Commit? && step.outcome.Lands() && step.id in s.rows
    && step.c in s.cycles && step.id in s.cycles[step.c].decided && step.id in s.cycles[step.c].read ==>
      var fired := s.rows[step.id].trigger.lastFiredAt;
      var cycle := s.cycles[step.c];
      fired.None? || cycle.decided[step.id] - fired.value >= cycle.read[step.id].trigger.cooldownMin * 60_000
  }

  // The last-fired instant of a row is the latest stored instant on record for it.
  ghost predicate LatestOnRecord(s: State, id: nat)
    requires id in s.rows
  {
    && id in s.used && s.rows[id].trigger.cooldownMin >= 0
    && (forall k :: 0 <= k < |s.log| && s.log[k].id == id ==>
          s.rows[id].trigger.lastFiredAt.Some? && s.log[k].storedAt <= s.rows[id].trigger.lastFiredAt.value)
    && (s.rows[id].trigger.lastFiredAt.Some? ==>
          exists k :: 0 <= k < |s.log| && s.log[k].id == id
                      && s.log[k].storedAt == s.rows[id].trigger.lastFiredAt.value)
  }

  ghost predicate Recorder(s: State) {
    && (forall id :: id in s.rows ==> LatestOnRecord(s, id))
    && (forall c, id :: c in s.cycles && id in s.cycles[c].read ==> s.cycles[c].read[id].trigger.cooldownMin >= 0)
  }

  lemma QuietRecorder(count: nat, s: State, step: Step, s': State)
    requires Recorder(s) && LogOk(s) && Linked(count, s, step, s') && s'.log == s.log
    ensures Recorder(s') && LogOk(s')
  {
    forall id | id in s'.rows ensures LatestOnRecord(s', id) {
      if id in s.rows { assert LatestOnRecord(s, id); }
    }
    forall c, id | c in s'.cycles && id in s'.cycles[c].read
      ensures s'.cycles[c].read[id].trigger.cooldownMin >= 0
    {
      if !(c in s.cycles && id in s.cycles[c].read) { assert LatestOnRecord(s, id); }
    }
  }

  // The log after a firing lands.
  predicate Appends(s: State, c: nat, id: nat, stored: int, s': State)
    requires c in s.cycles && id in s.cycles[c].decided && id in s.cycles[c].read
  {
    s'.log == s.log + [Firing(id, s.cycles[c].decided[id], stored, s.cycles[c].read[id].trigger.cooldownMin)]
  }

  lemma LandingKept(s: State, c: nat, id: nat, stored: int, outcome: Outcome, s': State)
    requires Recorder(s) && LogOk(s) && outcome.Lands() && id in s.rows
    requires Enabled(1, s, Commit(c, id, stored, outcome)) && s' == Committed(s, c, id, stored, outcome)
    requires Stands(s, Commit(c, id, stored, outcome))
    ensures Recorder(s') && LogOk(s')
  {
    var n := |s.log|;
    assert LatestOnRecord(s, id) && Appends(s, c, id, stored, s');
    forall x | x in s'.rows ensures LatestOnRecord(s', x) {
      assert LatestOnRecord(s, x);
      if x == id {
        assert s'.log[n].storedAt == stored && s'.log[n].id == id;
      } else if s.rows[x].trigger.lastFiredAt.Some? {
        var k :| 0 <= k < n && s.log[k].id == x && s.log[k].storedAt == s.rows[x].trigger.lastFiredAt.value;
        assert s'.log[k] == s.log[k];
      }
    }
  }

  lemma LandingBroken(s: State, c: nat, id: nat, stored: int, outcome: Outcome, s': State)
    requires Recorder(s) && outcome.Lands() && id in s.rows
    requires Enabled(1, s, Commit(c, id, stored, outcome)) && s' == Committed(s, c, id, stored, outcome)
    requires !Stands(s, Commit(c, id, stored, outcome))
    ensures !CooldownKept(s'.log)
  {
    var n := |s.log|;
    assert LatestOnRecord(s, id) && Appends(s, c, id, stored, s');
    var k :| 0 <= k < n && s.log[k].id == id && s.log[k].storedAt == s.rows[id].trigger.lastFiredAt.value;
    assert s'.log[k] == s.log[k] && s'.log[k].id == s'.log[n].id;
  }

  lemma LogStep(count: nat, s: State, step: Step, s': State)
    requires Recorder(s) && LogOk(s) && Linked(count, s, step, s')
    ensures CooldownKept(s'.log) <==> Stands(s, step)
    ensures CooldownKept(s'.log) ==> Recorder(s') && LogOk(s')
  {
    if step.Commit? && step.outcome.Lands() && step.id in s.rows {
      if Stands(s, step) {
        LandingKept(s, step.c, step.id, step.stored, step.outcome, s');
      } else {
        LandingBroken(s, step.c, step.id, step.stored, step.outcome, s');
      }
    } else {
      QuietRecorder(count, s, step, s');
    }
  }

  lemma PrefixKept(log: seq<Firing>, longer: seq<Firing>)
    requires log <= longer && CooldownKept(longer)
    ensures CooldownKept(log)
  {
    forall j, k | 0 <= j < k < |log| && log[j].id == log[k].id
      ensures log[k].decidedAt - log[j].storedAt >= log[k].cooldownMin * 60_000
    {
      assert longer[j] == log[j] && longer[k] == log[k];
    }
  }

  ghost predicate AllStand(states: seq<State>, steps: seq<Step>, n: nat)
    requires n <= |steps| < |states|
  {
    forall k :: 0 <= k < n ==> Stands(states[k], steps[k])
  }

  lemma {:induction false} KeptSoFar(count: nat, states: seq<State>, steps: seq<Step>, n: nat)
    requires Behaviour(count, states, steps) && n <= |steps|
    ensures CooldownKept(states[n].log) <==> AllStand(states, steps, n)
    ensures CooldownKept(states[n].log) ==> Recorder(states[n]) && LogOk(states[n])
  {
    if n > 0 {
      KeptSoFar(count, states, steps, n - 1);
      var s, step, s' := states[n - 1], steps[n - 1], states[n];
      assert Linked(count, s, step, s');
      if CooldownKept(s.log) {
        LogStep(count, s, step, s');
      } else if CooldownKept(s'.log) {
        PrefixKept(s.log, s'.log);
      }
      assert AllStand(states, steps, n) <==> AllStand(states, steps, n - 1) && Stands(s, step);
    }
  }

  /** The exact condition, for every run whatever overlaps: the cooldown is kept if and only if every
      firing that lands would still be decided against the row as it is at the commit. The code does
      not look again; a shard's cycles not overlapping is what spares it the look. */
  lemma CooldownKeptIff(count: nat, states: seq<State>, steps: seq<Step>)
    requires Behaviour(count, states, steps)
    ensures CooldownKept(states[|steps|].log) <==> forall k :: 0 <= k < |steps| ==> Stands(states[k], steps[k])
  {
    KeptSoFar(count, states, steps, |steps|);
  }

  // ---- Where a firing comes from ----

  ghost predicate BucketsInRange(s: State) {
    forall id :: id in s.rows ==> s.rows[id].bucket < LOCATION_BUCKETS
  }

  /** A cycle starts with exactly the active rows of its own shard before it, as they are now. */
  lemma BeginReads(count: nat, s: State, c: nat, shard: nat, s': State)
    requires count >= 1 && BucketsInRange(s) && Linked(count, s, Begin(c, shard), s')
    ensures c in s'.cycles && s'.cycles[c].shard == shard && s'.cycles[c].decided == map[]
    ensures forall id :: id in s'.cycles[c].pending <==>
              id in s.rows && s.rows[id].active && s.rows[id].bucket % count == shard
    ensures s'.cycles[c].read.Keys == s'.cycles[c].pending
    ensures forall id :: id in s'.cycles[c].read ==> s'.cycles[c].read[id] == s.rows[id]
  {
    forall id | id in s.rows ensures Selects(shard, count, s.rows[id].bucket) <==> s.rows[id].bucket % count == shard {
      ExactlyOneShard(count, s.rows[id].bucket);
    }
  }

  /** What an evaluation comes to: a firing is decided exactly when the conditions matched outside quiet
      hours and the cooldown since the firing on record is over; a row re-arms exactly when it had
      fired and they did not match; nothing else is written. */
  lemma EvaluationDecides(count: nat, s: State, c: nat, id: nat, matched: bool, quiet: bool, s': State)
    requires Linked(count, s, Evaluate(c, id, matched, quiet), s') && id !in s.cycles[c].decided
    ensures var t := s.cycles[c].read[id].trigger;
            && (id in s'.cycles[c].decided <==>
                  && matched && !quiet
                  && (t.lastFiredAt.None? || s.clock - t.lastFiredAt.value >= t.cooldownMin * 60_000))
            && (id in s'.cycles[c].decided ==> s'.cycles[c].decided[id] == s.clock)
            && s'.rows.Keys == s.rows.Keys && s'.log == s.log && id !in s'.cycles[c].pending
            && forall x :: x in s.rows ==>
                 s'.rows[x] == if x == id && !matched && t.state == Fired
                               then s.rows[x].(trigger := s.rows[x].trigger.(state := Armed)) else s.rows[x]
  {}

  lemma {:induction false} BucketsAlways(count: nat, states: seq<State>, steps: seq<Step>, n: nat)
    requires Behaviour(count, states, steps) && n < |states|
    ensures BucketsInRange(states[n])
  {
    if n > 0 {
      BucketsAlways(count, states, steps, n - 1);
      assert Linked(count, states[n - 1], steps[n - 1], states[n]);
    }
  }

  predicate Writes(step: Step, id: nat) {
    (step.Create? || step.Edit? || step.Delete?) && step.id == id
  }

  /** Polling never touches what the owner sets: a row is active, and has the cooldown, its last create
      or edit gave it; that was not a delete, and a deleted row stays gone. */
  lemma {:induction false} RowAsWritten(count: nat, states: seq<State>, steps: seq<Step>, n: nat, id: nat)
    returns (w: nat)
    requires Behaviour(count, states, steps) && n < |states| && id in states[n].rows
    ensures w < n && Writes(steps[w], id) && !steps[w].Delete?
    ensures forall k :: w < k < n ==> !Writes(steps[k], id)
    ensures states[n].rows[id].active == steps[w].active
    ensures states[n].rows[id].trigger.cooldownMin == steps[w].cooldownMin
  {
    var s, step := states[n - 1], steps[n - 1];
    assert Linked(count, s, step, states[n]);
    w := n - 1;
    if !Writes(step, id) {
      assert id in s.rows && states[n].rows[id].active == s.rows[id].active;
      w := RowAsWritten(count, states, steps, n - 1, id);
    }
  }

  // The read at step `b` is what the cycle still goes by.
  ghost predicate ReadAt(count: nat, states: seq<State>, steps: seq<Step>, b: nat, c: nat, cycle: Cycle)
    requires count >= 1
  {
    && b < |steps| && b < |states| && steps[b] == Begin(c, cycle.shard)
    && forall id :: id in cycle.read ==>
         && id in states[b].rows && states[b].rows[id] == cycle.read[id]
         && cycle.read[id].active && cycle.read[id].bucket % count == cycle.shard
  }

  lemma {:induction false} CycleHistory(count: nat, states: seq<State>, steps: seq<Step>, n: nat, c: nat)
    returns (b: nat)
    requires count >= 1 && Behaviour(count, states, steps) && n < |states| && c in states[n].cycles
    ensures b < n && ReadAt(count, states, steps, b, c, states[n].cycles[c])
  {
    b := n - 1;
    assert Linked(count, states[n - 1], steps[n - 1], states[n]);
    if c in states[n - 1].cycles {
      b := CycleHistory(count, states, steps, n - 1, c);
      assert states[n].cycles[c].read == states[n - 1].cycles[c].read;
    } else {
      BucketsAlways(count, states, steps, n - 1);
      assert steps[n - 1].Begin? && steps[n - 1].c == c;
      BeginReads(count, states[n - 1], c, steps[n - 1].shard, states[n]);
    }
  }

  lemma {:induction false} DecisionHistory(
      count: nat, states: seq<State>, steps: seq<Step>, n: nat, c: nat, id: nat)
    returns (b: nat, e: nat)
    requires count >= 1 && Behaviour(count, states, steps) && n < |states|
    requires c in states[n].cycles && id in states[n].cycles[c].decided
    ensures b < e < n && ReadAt(count, states, steps, b, c, states[n].cycles[c]) && id in states[n].cycles[c].read
    ensures steps[e] == Evaluate(c, id, true, false) && states[n].cycles[c].decided[id] == states[e].clock
  {
    var s, s' := states[n - 1], states[n];
    assert Linked(count, s, steps[n - 1], s');
    if c in s.cycles && id in s.cycles[c].decided && s'.cycles[c].decided[id] == s.cycles[c].decided[id] {
      b, e := DecisionHistory(count, states, steps, n - 1, c, id);
      assert s'.cycles[c].read == s.cycles[c].read && s'.cycles[c].shard == s.cycles[c].shard;
    } else {
      b := CycleHistory(count, states, steps, n - 1, c);
      e := n - 1;
    }
  }

  /** Every firing on record, over every run whatever overlaps: a cycle of the shard that owns the
      trigger read it while it was active, evaluated it matched and outside quiet hours at the instant
      recorded as the decision, and committed it; the cooldown recorded is the one it read. */
  lemma {:induction false} FiringHasHistory(count: nat, states: seq<State>, steps: seq<Step>, i: nat, n: nat)
    returns (b: nat, e: nat, k: nat)
    requires count >= 1 && Behaviour(count, states, steps) && i < |states| && n < |states[i].log|
    ensures b < e < k < i && steps[b].Begin? && steps[k].Commit? && steps[k].c == steps[b].c
    ensures var firing := states[i].log[n];
            && firing.id in states[b].rows && states[b].rows[firing.id].active
            && states[b].rows[firing.id].bucket % count == steps[b].shard
            && steps[e] == Evaluate(steps[b].c, firing.id, true, false) && firing.decidedAt == states[e].clock
            && steps[k].id == firing.id && steps[k].stored == firing.storedAt && steps[k].outcome.Lands()
            && firing.cooldownMin == states[b].rows[firing.id].trigger.cooldownMin
    decreases i
  {
    var s := states[i - 1];
    assert Linked(count, s, steps[i - 1], states[i]);
    if n < |s.log| {
      assert s.log[n] == states[i].log[n];
      b, e, k := FiringHasHistory(count, states, steps, i - 1, n);
    } else {
      k := i - 1;
      b, e := DecisionHistory(count, states, steps, k, steps[k].c, steps[k].id);
    }
  }

  const ROW := Row(Trigger(Armed, None, 60), 0, true)
  const IDLE := Cycle(0, map[0 := ROW], {0}, map[])
  const READY := Cycle(0, map[0 := ROW], {}, map[0 := 0])
  const SPENT := Cycle(0, map[0 := ROW], {}, map[])
  const TWICE := Firing(0, 0, 0, 60)

  function WithCycles(cycles: map<nat, Cycle>): State {
    State(0, map[0 := ROW], {0}, cycles, [])
  }

  function AfterFiring(cycles: map<nat, Cycle>, log: seq<Firing>): State {
    State(0, map[0 := ROW.(trigger := Trigger(Fired, Some(0), 60))], {0}, cycles, log)
  }

  lemma OverlappingReads()
    ensures Linked(1, Init(0), Create(0, 0, 60, true), WithCycles(map[]))
    ensures Linked(1, WithCycles(map[]), Begin(0, 0), WithCycles(map[0 := IDLE]))
    ensures Linked(1, WithCycles(map[0 := IDLE]), Begin(1, 0), WithCycles(map[0 := IDLE, 1 := IDLE]))
  {
    assert FindActive(1, map[0 := ROW], 0) == map[0 := ROW];
    assert map[0 := ROW].Keys == {0};
    assert Apply(1, Init(0), Create(0, 0, 60, true)).rows == map[0 := ROW];
    assert Apply(1, WithCycles(map[]), Begin(0, 0)).cycles == map[0 := IDLE];
    assert Apply(1, WithCycles(map[0 := IDLE]), Begin(1, 0)).cycles == map[0 := IDLE, 1 := IDLE];
  }

  lemma OverlappingDecisions()
    ensures Linked(1, WithCycles(map[0 := IDLE, 1 := IDLE]), Evaluate(0, 0, true, false),
                   WithCycles(map[0 := READY, 1 := IDLE]))
    ensures Linked(1, WithCycles(map[0 := READY, 1 := IDLE]), Evaluate(1, 0, true, false),
                   WithCycles(map[0 := READY, 1 := READY]))
  {
    assert IDLE.(pending := IDLE.pending - {0}, decided := IDLE.decided[0 := 0]) == READY;
    assert map[0 := IDLE, 1 := IDLE][0 := READY] == map[0 := READY, 1 := IDLE];
    assert map[0 := READY, 1 := IDLE][1 := READY] == map[0 := READY, 1 := READY];
  }

  lemma OverlappingCommits()
    ensures Linked(1, WithCycles(map[0 := READY, 1 := READY]), Commit(0, 0, 0, Answered),
                   AfterFiring(map[0 := SPENT, 1 := READY], [TWICE]))
    ensures Linked(1, AfterFiring(map[0 := SPENT, 1 := READY], [TWICE]), Commit(1, 0, 0, Answered),
                   AfterFiring(map[0 := SPENT, 1 := SPENT], [TWICE, TWICE]))
  {}

  /** Without the lock the cooldown is not kept: two overlapping cycles of one shard both read the row
      before either firing and deliver twice in the same instant, under a cooldown of an hour. */
  lemma OverlapBreaksCooldown() returns (states: seq<State>, steps: seq<Step>)
    ensures Behaviour(1, states, steps)
    ensures states[|steps|].log == [Firing(0, 0, 0, 60), Firing(0, 0, 0, 60)]
  {
    states := [Init(0), WithCycles(map[]), WithCycles(map[0 := IDLE]), WithCycles(map[0 := IDLE, 1 := IDLE]),
               WithCycles(map[0 := READY, 1 := IDLE]), WithCycles(map[0 := READY, 1 := READY]),
               AfterFiring(map[0 := SPENT, 1 := READY], [TWICE]),
               AfterFiring(map[0 := SPENT, 1 := SPENT], [TWICE, TWICE])];
    steps := [Create(0, 0, 60, true), Begin(0, 0), Begin(1, 0), Evaluate(0, 0, true, false),
              Evaluate(1, 0, true, false), Commit(0, 0, 0, Answered), Commit(1, 0, 0, Answered)];
    OverlappingReads();
    OverlappingDecisions();
    OverlappingCommits();
  }
}
