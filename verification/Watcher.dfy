/** The watcher as a whole: every shard's poll cycles under its own lock, and the rows they read and
    write, side by side; a cycle's read, decisions and commits happen while its workers run. Joining
    the two gives the cooldown from what the lock promises and what it does not. */
module Watcher {
  import opened Domain
  import Arithmetic
  import P = PollCycle
  import D = Deployment

  datatype State = State(shards: seq<P.State>, deploy: D.State)

  // `Lock` is a step of one shard's lock or workers; `Read` the query a cycle starts with; `Evaluate`
  // and `Commit` belong to a worker that is polling a location.
  datatype Step =
    | Tick(elapsed: nat)
    | User(edit: D.Step)
    | Lock(shard: nat, move: P.Step)
    | Read(shard: nat, c: nat, groups: nat, concurrency: nat)
    | Evaluate(shard: nat, c: nat, w: nat, id: nat, matched: bool, quiet: bool)
    | Commit(shard: nat, c: nat, w: nat, id: nat, stored: int, outcome: Outcome)

  function Init(count: nat, clock: int): State {
    State(seq(count, _ => P.Init(clock)), D.Init(clock))
  }

  // Cycles of different shards carry different tokens.
  function Id(count: nat, shard: nat, c: nat): nat {
    c * count + shard
  }

  predicate Polling(s: State, shard: nat, c: nat, w: nat) {
    shard < |s.shards| && P.IsWorker(s.shards[shard], c, w) && s.shards[shard].cycles[c].workers[w].Busy?
  }

  predicate Enabled(count: nat, s: State, step: Step) {
    && |s.shards| == count
    && match step
       case Tick(_) => true
       case User(edit) => (edit.Create? || edit.Edit? || edit.Delete?) && D.Enabled(count, s.deploy, edit)
       case Lock(shard, move) =>
         shard < count && !move.Tick? && !move.Load? && P.Enabled(s.shards[shard], move)
       case Read(shard, c, groups, concurrency) =>
         && shard < count && P.Enabled(s.shards[shard], P.Load(c, groups, concurrency))
         && D.Enabled(count, s.deploy, D.Begin(Id(count, shard, c), shard))
       case Evaluate(shard, c, w, id, matched, quiet) =>
         && Polling(s, shard, c, w)
         && D.Enabled(count, s.deploy, D.Evaluate(Id(count, shard, c), id, matched, quiet))
       case Commit(shard, c, w, id, stored, outcome) =>
         && Polling(s, shard, c, w)
         && D.Enabled(count, s.deploy, D.Commit(Id(count, shard, c), id, stored, outcome))
  }

  // The cycle a move belongs to has no worker left, and so is over for the rows.
  ghost predicate Ends(count: nat, s: State, shard: nat, move: P.Step, after: P.State) {
    !move.Tick? && !move.Acquire? && Id(count, shard, move.c) in s.deploy.cycles && !P.Unfinished(after, move.c)
  }

  ghost function Moved(count: nat, s: State, shard: nat, move: P.Step): State
    requires shard < |s.shards| && P.Enabled(s.shards[shard], move)
  {
    var after := P.Apply(s.shards[shard], move);
    State(s.shards[shard := after],
          if Ends(count, s, shard, move, after)
          then D.Apply(count, s.deploy, D.End(Id(count, shard, move.c)))
          else s.deploy)
  }

  ghost function Apply(count: nat, s: State, step: Step): State
    requires Enabled(count, s, step)
  {
    match step
    case Tick(elapsed) =>
      State(seq(|s.shards|, i requires 0 <= i < |s.shards| => P.Apply(s.shards[i], P.Tick(elapsed))),
            D.Apply(count, s.deploy, D.Tick(elapsed)))
    case User(edit) => s.(deploy := D.Apply(count, s.deploy, edit))
    case Lock(shard, move) => Moved(count, s, shard, move)
    case Read(shard, c, groups, concurrency) =>
      State(s.shards[shard := P.Apply(s.shards[shard], P.Load(c, groups, concurrency))],
            D.Apply(count, s.deploy, D.Begin(Id(count, shard, c), shard)))
    case Evaluate(shard, c, _, id, matched, quiet) =>
      s.(deploy := D.Apply(count, s.deploy, D.Evaluate(Id(count, shard, c), id, matched, quiet)))
    case Commit(shard, c, _, id, stored, outcome) =>
      s.(deploy := D.Apply(count, s.deploy, D.Commit(Id(count, shard, c), id, stored, outcome)))
  }

  ghost predicate Linked(count: nat, s: State, step: Step, s': State) {
    Enabled(count, s, step) && s' == Apply(count, s, step)
  }

  ghost predicate Behaviour(count: nat, states: seq<State>, steps: seq<Step>) {
    && |states| == |steps| + 1 && states[0] == Init(count, states[0].deploy.clock)
    && forall i :: 0 <= i < |steps| ==> Linked(count, states[i], steps[i], states[i + 1])
  }

  // ---- The conditions, all about the lock ----

  // Renewal replies come back before the TTL lapses, in every shard.
  ghost predicate Prompt(s: State) {
    forall i :: 0 <= i < |s.shards| ==> P.Prompt(s.shards[i])
  }

  /** No worker rejects under a raised flag beside a running one, and a cycle that was told its lock is
      gone has drained before the next cycle of its shard acquires it. */
  ghost predicate Orderly(s: State, step: Step) {
    step.Lock? && step.shard < |s.shards| ==>
      && !P.Orphans(s.shards[step.shard], step.move)
      && (step.move.Acquire? && !P.Held(s.shards[step.shard]) ==>
            forall c :: P.Unfinished(s.shards[step.shard], c) ==> s.shards[step.shard].cycles[c].held)
  }

  // ---- What every orderly step keeps ----

  // A cycle the rows know of is one whose workers are running.
  ghost predicate Running(count: nat, s: State, id: nat)
    requires count >= 1 && |s.shards| == count && id in s.deploy.cycles
  {
    var shard, c := id % count, id / count;
    && s.deploy.cycles[id].shard == shard
    && P.Unfinished(s.shards[shard], c) && s.shards[shard].cycles[c].phase != P.Loading
  }

  ghost predicate ShardOk(p: P.State) {
    P.LockInv(p) && P.Solo(p)
  }

  ghost predicate Inv(count: nat, s: State) {
    && count >= 1 && |s.shards| == count
    && (forall i :: 0 <= i < count ==> ShardOk(s.shards[i]))
    && (forall id :: id in s.deploy.cycles ==> Running(count, s, id))
    && D.Inv(count, s.deploy)
  }

  lemma IdParts(count: nat, shard: nat, c: nat)
    requires shard < count
    ensures Id(count, shard, c) / count == c && Id(count, shard, c) % count == shard
  {
    Arithmetic.Remainder(Id(count, shard, c), count, c, shard);
  }

  lemma SamePartsSameId(count: nat, a: nat, b: nat)
    requires count >= 1 && a % count == b % count && a / count == b / count
    ensures a == b
  {}

  lemma NoOverlapOfRows(count: nat, s: State)
    requires Inv(count, s)
    ensures D.NoOverlap(s.deploy)
  {
    forall a, b | a in s.deploy.cycles && b in s.deploy.cycles && s.deploy.cycles[a].shard == s.deploy.cycles[b].shard
      ensures a == b
    {
      assert Running(count, s, a) && Running(count, s, b);
      assert ShardOk(s.shards[a % count]);
      SamePartsSameId(count, a, b);
    }
  }

  lemma RowsStep(count: nat, s: State, step: D.Step)
    requires Inv(count, s) && D.Enabled(count, s.deploy, step)
    ensures D.Inv(count, D.Apply(count, s.deploy, step))
  {
    NoOverlapOfRows(count, s);
    D.NoOverlapNeverClobbers(count, s.deploy, step);
    D.StepKeeps(count, s.deploy, step, D.Apply(count, s.deploy, step));
  }

  // Only the cycle a move belongs to changes; none goes back to loading.
  lemma OthersStay(p: P.State, move: P.Step, p': P.State, c: nat)
    requires P.LockInv(p) && P.Enabled(p, move) && p' == P.Apply(p, move) && c in p.cycles
    ensures move.Tick? || move.Acquire? || move.c != c ==> c in p'.cycles && p'.cycles[c] == p.cycles[c]
    ensures c in p'.cycles && p.cycles[c].phase != P.Loading ==> p'.cycles[c].phase != P.Loading
  {}

  lemma ShardStep(p: P.State, move: P.Step, p': P.State)
    requires ShardOk(p) && P.Prompt(p) && P.Enabled(p, move) && p' == P.Apply(p, move) && !P.Orphans(p, move)
    requires move.Acquire? && !P.Held(p) ==> forall c :: P.Unfinished(p, c) ==> p.cycles[c].held
    ensures ShardOk(p')
  {
    P.LockStep(p, move);
    if P.AcquiresTooEarly(p, move) {
      var c :| P.Unfinished(p, c);
      P.OverlapHasFlagDown(p, move, c);
    }
    P.SoloKeptIff(p, move);
  }

  lemma TickKeeps(count: nat, s: State, elapsed: nat, s': State)
    requires Inv(count, s) && Prompt(s) && s' == Apply(count, s, Tick(elapsed))
    ensures Inv(count, s')
  {
    RowsStep(count, s, D.Tick(elapsed));
    forall i | 0 <= i < count ensures ShardOk(s'.shards[i]) {
      ShardStep(s.shards[i], P.Tick(elapsed), s'.shards[i]);
    }
    forall id | id in s'.deploy.cycles ensures Running(count, s', id) { assert Running(count, s, id); }
  }

  // What a move leaves of a running cycle: it still runs, unless the move was its own and ended it.
  lemma StillRuns(p: P.State, move: P.Step, p': P.State, c: nat)
    requires P.LockInv(p) && P.Enabled(p, move) && p' == P.Apply(p, move)
    requires P.Unfinished(p, c) && p.cycles[c].phase != P.Loading
    requires !move.Tick? && !move.Acquire? && move.c == c ==> P.Unfinished(p', c)
    ensures P.Unfinished(p', c) && p'.cycles[c].phase != P.Loading
  {
    OthersStay(p, move, p', c);
  }

  lemma RunningStays(count: nat, s: State, shard: nat, move: P.Step, s': State, id: nat)
    requires Inv(count, s) && Enabled(count, s, Lock(shard, move)) && s' == Moved(count, s, shard, move)
    requires id in s.deploy.cycles && (Ends(count, s, shard, move, s'.shards[shard]) ==> id != Id(count, shard, move.c))
    ensures P.Unfinished(s'.shards[id % count], id / count)
         && s'.shards[id % count].cycles[id / count].phase != P.Loading
  {
    assert Running(count, s, id);
    if id % count == shard {
      IdParts(count, shard, id / count);
      SamePartsSameId(count, id, Id(count, shard, id / count));
      StillRuns(s.shards[shard], move, s'.shards[shard], id / count);
    }
  }

  lemma LockKeeps(count: nat, s: State, shard: nat, move: P.Step, s': State)
    requires Inv(count, s) && Prompt(s) && Enabled(count, s, Lock(shard, move)) && Orderly(s, Lock(shard, move))
    requires s' == Moved(count, s, shard, move)
    ensures Inv(count, s')
  {
    ShardStep(s.shards[shard], move, s'.shards[shard]);
    forall i | 0 <= i < count ensures ShardOk(s'.shards[i]) { assert i != shard ==> ShardOk(s.shards[i]); }
    forall id | id in s'.deploy.cycles ensures Running(count, s', id) {
      assert Running(count, s, id);
      RunningStays(count, s, shard, move, s', id);
    }
    if Ends(count, s, shard, move, s'.shards[shard]) {
      RowsStep(count, s, D.End(Id(count, shard, move.c)));
    }
  }

  lemma ReadKeeps(count: nat, s: State, step: Step, s': State)
    requires Inv(count, s) && Prompt(s) && step.Read? && Linked(count, s, step, s')
    ensures Inv(count, s')
  {
    var load := P.Load(step.c, step.groups, step.concurrency);
    var p, p' := s.shards[step.shard], s'.shards[step.shard];
    ShardStep(p, load, p');
    RowsStep(count, s, D.Begin(Id(count, step.shard, step.c), step.shard));
    IdParts(count, step.shard, step.c);
    assert p'.cycles[step.c].workers[0] in p'.cycles[step.c].workers;
    forall i | 0 <= i < count ensures ShardOk(s'.shards[i]) { assert i != step.shard ==> ShardOk(s.shards[i]); }
    forall id | id in s'.deploy.cycles ensures Running(count, s', id) {
      if id != Id(count, step.shard, step.c) {
        assert Running(count, s, id);
        if id % count == step.shard { OthersStay(p, load, p', id / count); }
      }
    }
  }

  // A cycle that has loaded nothing yet is unknown to the rows, so its read is never held up.
  lemma ReadIsFree(count: nat, s: State, shard: nat, c: nat, groups: nat, concurrency: nat)
    requires Inv(count, s) && shard < count && P.Enabled(s.shards[shard], P.Load(c, groups, concurrency))
    ensures Enabled(count, s, Read(shard, c, groups, concurrency))
  {
    var id := Id(count, shard, c);
    IdParts(count, shard, c);
    assert id in s.deploy.cycles ==> Running(count, s, id);
  }

  lemma SameCycles(count: nat, d: D.State, step: D.Step, d': D.State)
    requires D.Enabled(count, d, step) && d' == D.Apply(count, d, step)
    requires step.Create? || step.Edit? || step.Delete? || step.Evaluate? || step.Commit?
    ensures forall id :: id in d'.cycles ==> id in d.cycles && d'.cycles[id].shard == d.cycles[id].shard
  {}

  // The rows' own steps: users, and workers polling.
  lemma RowsKeep(count: nat, s: State, step: D.Step, s': State)
    requires Inv(count, s) && D.Enabled(count, s.deploy, step) && s' == s.(deploy := D.Apply(count, s.deploy, step))
    requires step.Create? || step.Edit? || step.Delete? || step.Evaluate? || step.Commit?
    ensures Inv(count, s')
  {
    RowsStep(count, s, step);
    SameCycles(count, s.deploy, step, s'.deploy);
    forall id | id in s'.deploy.cycles ensures Running(count, s', id) { assert Running(count, s, id); }
  }

  lemma StepKeeps(count: nat, s: State, step: Step, s': State)
    requires Inv(count, s) && Prompt(s) && Orderly(s, step) && Linked(count, s, step, s')
    ensures Inv(count, s')
  {
    match step
    case Tick(elapsed) => TickKeeps(count, s, elapsed, s');
    case User(edit) => RowsKeep(count, s, edit, s');
    case Lock(shard, move) => LockKeeps(count, s, shard, move, s');
    case Read(_, _, _, _) => ReadKeeps(count, s, step, s');
    case Evaluate(shard, c, _, id, matched, quiet) =>
      RowsKeep(count, s, D.Evaluate(Id(count, shard, c), id, matched, quiet), s');
    case Commit(shard, c, _, id, stored, outcome) =>
      RowsKeep(count, s, D.Commit(Id(count, shard, c), id, stored, outcome), s');
  }

  lemma InitKeeps(count: nat, clock: int)
    requires count >= 1
    ensures Inv(count, Init(count, clock))
  {
    var s := Init(count, clock);
    forall i | 0 <= i < count ensures ShardOk(s.shards[i]) {
      assert s.shards[i] == P.Init(clock);
      forall c ensures P.CycleOk(s.shards[i], c) {}
    }
  }

  lemma {:induction false} InvAlways(count: nat, states: seq<State>, steps: seq<Step>, i: nat)
    requires count >= 1 && Behaviour(count, states, steps) && i < |states|
    requires forall n :: 0 <= n < |states| ==> Prompt(states[n])
    requires forall n :: 0 <= n < |steps| ==> Orderly(states[n], steps[n])
    ensures Inv(count, states[i])
  {
    if i == 0 {
      InitKeeps(count, states[0].deploy.clock);
    } else {
      InvAlways(count, states, steps, i - 1);
      assert Linked(count, states[i - 1], steps[i - 1], states[i]);
      StepKeeps(count, states[i - 1], steps[i - 1], states[i]);
    }
  }

  /** The cooldown from the lock's own conditions: with renewal replies inside the TTL, no worker
      rejecting beside a running one, and every cycle that lost its flag drained before the next cycle
      of its shard acquires the lock, any two firings of a trigger keep its cooldown apart, however
      many shards poll, however conditions flap, users edit and processes die. */
  lemma CooldownFromTheLock(count: nat, states: seq<State>, steps: seq<Step>, i: nat)
    requires count >= 1 && Behaviour(count, states, steps) && i < |states|
    requires forall n :: 0 <= n < |states| ==> Prompt(states[n])
    requires forall n :: 0 <= n < |steps| ==> Orderly(states[n], steps[n])
    ensures D.CooldownKept(states[i].deploy.log)
    ensures D.NoOverlap(states[i].deploy)
  {
    InvAlways(count, states, steps, i);
    NoOverlapOfRows(count, states[i]);
  }
}
