/** The poll cycle of one shard: a fenced Redis lock with a TTL, renewed on a timer while a pool of
    workers drains a shared queue of locations. Cycles of any number of instances interleave at the
    level of Redis commands and worker turns; renewal replies may arrive late, out of order, or say
    "no" because Redis was unreachable. */
module PollCycle {
  import opened Domain
  import opened RedisLock

  // CYCLE_LOCK_TTL_SEC, in milliseconds.
  const LOCK_TTL_MS: int := 120_000

  datatype Reply = Reply(renewed: bool, at: int)

  datatype Worker = Idle | Busy(group: nat) | Done

  // Loading reads the triggers; Polling runs the workers under the renewal timer; then the lock is
  // released. A rejecting worker ends Polling while the other workers go on.
  datatype Phase = Loading | Polling | Releasing | Closed

  // `confirmed` is the server time of the last renewal whose positive reply arrived. Groups are
  // numbered; `started` and `polled` record what the workers did.
  datatype Cycle = Cycle(
    phase: Phase,
    held: bool,
    confirmed: int,
    replies: seq<Reply>,
    groups: nat,
    concurrency: nat,
    queue: seq<nat>,
    workers: seq<Worker>,
    started: seq<nat>,
    polled: set<nat>)

  // A cycle's id is its token, so tokens are never reused.
  datatype State = State(clock: int, lock: Slot, cycles: map<nat, Cycle>, next: nat)

  datatype Step =
    | Tick(elapsed: nat)
    | Acquire
    | Load(c: nat, groups: nat, concurrency: nat)
    | Renew(c: nat, reached: bool, answered: bool)
    | Arrive(c: nat, k: nat)
    | Turn(c: nat, w: nat)
    | Polled(c: nat, w: nat)
    | Reject(c: nat, w: nat)
    | Finish(c: nat)
    | Release(c: nat, reached: bool)
    | Crash(c: nat)

  function Init(clock: int): State {
    State(clock, None, map[], 0)
  }

  predicate Held(s: State) {
    Live(s.lock, s.clock)
  }

  predicate OwnedBy(s: State, c: nat) {
    OwnedLive(s.lock, c, s.clock)
  }

  function Count(n: nat): seq<nat> {
    seq(n, i => i)
  }

  predicate IsWorker(s: State, c: nat, w: nat) {
    c in s.cycles && w < |s.cycles[c].workers|
  }

  predicate Enabled(s: State, step: Step) {
    match step
    case Tick(_) => true
    case Acquire => true
    case Load(c, groups, concurrency) => c in s.cycles && s.cycles[c].phase == Loading && groups > 0 && concurrency > 0
    case Renew(c, _, _) => c in s.cycles && s.cycles[c].phase == Polling
    case Arrive(c, k) => c in s.cycles && k < |s.cycles[c].replies|
    case Turn(c, w) => IsWorker(s, c, w) && s.cycles[c].workers[w] == Idle
    case Polled(c, w) => IsWorker(s, c, w) && s.cycles[c].workers[w].Busy?
    case Reject(c, w) => IsWorker(s, c, w) && s.cycles[c].workers[w].Busy?
    case Finish(c) =>
      && c in s.cycles
      && (|| s.cycles[c].phase == Loading
          || (s.cycles[c].phase == Polling && forall w :: w in s.cycles[c].workers ==> w == Done))
    case Release(c, _) => c in s.cycles && s.cycles[c].phase == Releasing
    case Crash(c) => c in s.cycles
  }

  function With(s: State, c: nat, cycle: Cycle): State {
    s.(cycles := s.cycles[c := cycle])
  }

  // SET key token EX ttl NX; a loser skips its tick.
  function Acquired(s: State): State {
    if Held(s) then s.(next := s.next + 1) else
    State(s.clock, SetIfAbsent(s.lock, s.next, LOCK_TTL_MS, s.clock),
          s.cycles[s.next := Cycle(Loading, true, s.clock, [], 0, 0, [], [], [], {})], s.next + 1)
  }

  // Compare-and-expire; an unreachable Redis, or a lost answer, reads as "no".
  function Renewed(s: State, c: nat, reached: bool, answered: bool): State
    requires c in s.cycles
  {
    var owned := reached && OwnedBy(s, c);
    var extended := if reached then s.(lock := ExtendIfOwned(s.lock, c, LOCK_TTL_MS, s.clock)) else s;
    With(extended, c, s.cycles[c].(replies := s.cycles[c].replies + [Reply(owned && answered, s.clock)]))
  }

  function Arrived(s: State, c: nat, k: nat): State
    requires c in s.cycles && k < |s.cycles[c].replies|
  {
    var cycle := s.cycles[c];
    var reply := cycle.replies[k];
    With(s, c, cycle.(
      replies := cycle.replies[..k] + cycle.replies[k + 1..],
      held := cycle.held && reply.renewed,
      confirmed := if reply.renewed && reply.at > cycle.confirmed then reply.at else cycle.confirmed))
  }

  // One turn of a worker's loop: stop if the flag dropped or the queue is empty, else take a location.
  function Turned(cycle: Cycle, w: nat): Cycle
    requires w < |cycle.workers|
  {
    if !cycle.held || cycle.queue == [] then cycle.(workers := cycle.workers[w := Done])
    else cycle.(workers := cycle.workers[w := Busy(cycle.queue[0])],
                queue := cycle.queue[1..],
                started := cycle.started + [cycle.queue[0]])
  }

  function Apply(s: State, step: Step): State
    requires Enabled(s, step)
  {
    match step
    case Tick(elapsed) => s.(clock := s.clock + elapsed)
    case Acquire => Acquired(s)
    case Load(c, groups, concurrency) =>
      var pool := if concurrency < groups then concurrency else groups;
      With(s, c, s.cycles[c].(phase := Polling, groups := groups, concurrency := concurrency, queue := Count(groups),
                              workers := seq(pool, _ => Idle)))
    case Renew(c, reached, answered) => Renewed(s, c, reached, answered)
    case Arrive(c, k) => Arrived(s, c, k)
    case Turn(c, w) => With(s, c, Turned(s.cycles[c], w))
    case Polled(c, w) =>
      With(s, c, s.cycles[c].(polled := s.cycles[c].polled + {s.cycles[c].workers[w].group},
                              workers := s.cycles[c].workers[w := Idle]))
    case Reject(c, w) =>
      With(s, c, s.cycles[c].(phase := if s.cycles[c].phase == Polling then Releasing else s.cycles[c].phase,
                              workers := s.cycles[c].workers[w := Done]))
    case Finish(c) => With(s, c, s.cycles[c].(phase := Releasing))
    case Release(c, reached) =>
      With(s.(lock := if reached then DeleteIfOwned(s.lock, c, s.clock) else s.lock), c, s.cycles[c].(phase := Closed))
    case Crash(c) => s.(cycles := s.cycles - {c})
  }

  ghost predicate Linked(s: State, step: Step, s': State) {
    Enabled(s, step) && s' == Apply(s, step)
  }

  ghost predicate Behaviour(states: seq<State>, steps: seq<Step>) {
    && |states| == |steps| + 1 && states[0] == Init(states[0].clock)
    && forall i :: 0 <= i < |steps| ==> Linked(states[i], steps[i], states[i + 1])
  }

  // ---- Fencing ----

  /** No client extends or deletes another's lock, and nobody acquires a held one: while the key is
      held, its token changes only by its owner's release, its expiry only by its owner's renewal. */
  lemma Fenced(s: State, step: Step)
    requires Enabled(s, step) && Held(s)
    ensures var s' := Apply(s, step);
            && (s'.lock.None? ==> step.Release? && step.c == s.lock.value.token)
            && (s'.lock.Some? ==> s'.lock.value.token == s.lock.value.token)
            && (s'.lock.Some? && s'.lock != s.lock ==> step.Renew? && step.c == s.lock.value.token)
  {}

  // ---- A held flag means ownership ----

  /** The cycle is at work and believes it holds the lock. */
  predicate Active(cycle: Cycle) {
    (cycle.phase == Loading || cycle.phase == Polling) && cycle.held
  }

  /** Every renewal reply arrives before the TTL of the last confirmed one lapses. */
  ghost predicate Prompt(s: State) {
    forall c :: c in s.cycles && Active(s.cycles[c]) ==> s.clock <= s.cycles[c].confirmed + LOCK_TTL_MS
  }

  ghost predicate CycleOk(s: State, c: nat) {
    c in s.cycles ==>
      var cycle := s.cycles[c];
      && (Active(cycle) ==>
            && s.lock.Some? && s.lock.value.token == c
            && s.lock.value.expiresAt >= cycle.confirmed + LOCK_TTL_MS)
      && (forall r :: r in cycle.replies && r.renewed && s.lock.Some? && s.lock.value.token == c ==>
            s.lock.value.expiresAt >= r.at + LOCK_TTL_MS)
      && (cycle.phase == Loading ==> cycle.workers == [])
      && (cycle.held && (cycle.phase == Releasing || cycle.phase == Closed) ==>
            forall w :: w in cycle.workers ==> w == Done)
  }

  ghost predicate LockInv(s: State) {
    && (forall c :: c in s.cycles ==> c < s.next)
    && (s.lock.Some? ==> s.lock.value.token < s.next && s.lock.value.expiresAt <= s.clock + LOCK_TTL_MS)
    && (forall c :: CycleOk(s, c))
  }

  /** The one step that breaks this: under a raised flag a worker rejects while another of its cycle is
      still running, so the cycle goes on to release its lock and the other worker does not know. */
  ghost predicate Orphans(s: State, step: Step) {
    && step.Reject? && IsWorker(s, step.c, step.w) && s.cycles[step.c].held
    && exists v :: 0 <= v < |s.cycles[step.c].workers| && v != step.w && s.cycles[step.c].workers[v] != Done
  }

  lemma LockStep(s: State, step: Step)
    requires LockInv(s) && Prompt(s) && Enabled(s, step) && !Orphans(s, step)
    ensures LockInv(Apply(s, step))
  {
    var s' := Apply(s, step);
    forall c ensures CycleOk(s', c) {
      assert CycleOk(s, c);
      if step.Reject? { RejectOk(s, step.c, step.w, s', c); } else { CycleStep(s, step, s', c); }
    }
  }

  lemma RejectOk(s: State, c: nat, w: nat, s': State, d: nat)
    requires LockInv(s) && Enabled(s, Reject(c, w)) && !Orphans(s, Reject(c, w)) && s' == Apply(s, Reject(c, w))
    ensures CycleOk(s', d)
  {
    assert CycleOk(s, c) && CycleOk(s, d);
    var workers := s'.cycles[c].workers;
    if s.cycles[c].held {
      forall x | x in workers ensures x == Done {
        var v :| 0 <= v < |workers| && workers[v] == x;
      }
    }
    assert s.cycles[c].workers[w] in s.cycles[c].workers;
  }

  /** Exactly when a step keeps ownership behind the flag. */
  lemma LockKeptIff(s: State, step: Step)
    requires LockInv(s) && Prompt(s) && Enabled(s, step)
    ensures LockInv(Apply(s, step)) <==> !Orphans(s, step)
  {
    if Orphans(s, step) {
      var c, w := step.c, step.w;
      var v :| 0 <= v < |s.cycles[c].workers| && v != w && s.cycles[c].workers[v] != Done;
      var s' := Apply(s, step);
      assert CycleOk(s, c) && s.cycles[c].workers[w] in s.cycles[c].workers;
      assert s'.cycles[c].workers[v] in s'.cycles[c].workers;
      assert !CycleOk(s', c);
    } else {
      LockStep(s, step);
    }
  }

  lemma CycleStep(s: State, step: Step, s': State, c: nat)
    requires LockInv(s) && Prompt(s) && Enabled(s, step) && !step.Reject? && s' == Apply(s, step)
    ensures CycleOk(s', c)
  {
    assert CycleOk(s, c);
    if c in s'.cycles {
      if step.Turn? || step.Polled? {
        assert s'.lock == s.lock;
        assert step.c == c && s.cycles[c].held ==> s.cycles[c].phase == Polling by {
          if step.c == c { assert s.cycles[c].workers[step.w] in s.cycles[c].workers; }
        }
      } else if step.Arrive? && step.c == c {
        ArriveOk(s, c, step.k);
      } else if step.Renew? && step.c == c {
        RenewOk(s, c, step.reached, step.answered);
      }
    }
  }

  lemma ArriveOk(s: State, c: nat, k: nat)
    requires c in s.cycles && CycleOk(s, c) && k < |s.cycles[c].replies|
    ensures CycleOk(Arrived(s, c, k), c)
  {
    var cycle := s.cycles[c];
    var left := cycle.replies[..k] + cycle.replies[k + 1..];
    assert cycle.replies[k] in cycle.replies;
    forall r | r in left ensures r in cycle.replies {}
  }

  lemma RenewOk(s: State, c: nat, reached: bool, answered: bool)
    requires c in s.cycles && CycleOk(s, c)
    requires s.lock.Some? ==> s.lock.value.expiresAt <= s.clock + LOCK_TTL_MS
    ensures CycleOk(Renewed(s, c, reached, answered), c)
  {
    var cycle := s.cycles[c];
    forall r | r in cycle.replies + [Reply(reached && OwnedBy(s, c) && answered, s.clock)]
      ensures r in cycle.replies || r.at == s.clock {}
  }

  lemma {:induction false} LockAlways(states: seq<State>, steps: seq<Step>, i: nat)
    requires Behaviour(states, steps) && i < |states|
    requires forall k :: 0 <= k < |steps| ==> !Orphans(states[k], steps[k])
    requires forall k :: 0 <= k < |states| ==> Prompt(states[k])
    ensures LockInv(states[i])
  {
    if i > 0 {
      LockAlways(states, steps, i - 1);
      assert Linked(states[i - 1], steps[i - 1], states[i]);
      LockStep(states[i - 1], steps[i - 1]);
    }
  }

  /** A worker of the cycle is about to take a location. */
  predicate Starts(s: State, c: nat, w: nat) {
    IsWorker(s, c, w) && s.cycles[c].workers[w] == Idle && s.cycles[c].held && s.cycles[c].queue != []
  }

  /** The flag is up and a worker of the cycle is polling a location or may still take one. */
  ghost predicate WorksUnderFlag(s: State, c: nat) {
    c in s.cycles && s.cycles[c].held && exists v :: v in s.cycles[c].workers && v != Done
  }

  /** What that step does to the property itself: once the cycle's release has gone through, it has a
      worker running under a raised flag and no lock. */
  lemma OrphanRunsUnlocked(s: State, step: Step) returns (s': State)
    requires LockInv(s) && Prompt(s) && Enabled(s, step) && Orphans(s, step)
    ensures Enabled(Apply(s, step), Release(step.c, true))
    ensures s' == Apply(Apply(s, step), Release(step.c, true))
    ensures WorksUnderFlag(s', step.c) && !OwnedBy(s', step.c)
  {
    var c, w, mid := step.c, step.w, Apply(s, step);
    var v :| 0 <= v < |s.cycles[c].workers| && v != w && s.cycles[c].workers[v] != Done;
    assert CycleOk(s, c) && s.cycles[c].workers[w] in s.cycles[c].workers;
    s' := Apply(mid, Release(c, true));
    assert s'.cycles[c].workers[v] in s'.cycles[c].workers;
  }

  /** Fenced lock with renewal: in every run with prompt replies in which no worker rejects under a
      raised flag while another is running, a cycle at work whose flag says "held" owns the unexpired key. So a worker
      takes a location only under its cycle's own lock, and of the cycles with workers still running
      at most one has its flag up. */
  lemma HeldMeansOwned(states: seq<State>, steps: seq<Step>, i: nat)
    requires Behaviour(states, steps) && i < |states|
    requires forall k :: 0 <= k < |steps| ==> !Orphans(states[k], steps[k])
    requires forall k :: 0 <= k < |states| ==> Prompt(states[k])
    ensures forall c :: c in states[i].cycles && Active(states[i].cycles[c]) ==> OwnedBy(states[i], c)
    ensures forall c: nat, w: nat :: Starts(states[i], c, w) ==> OwnedBy(states[i], c)
    ensures forall c: nat, d: nat :: WorksUnderFlag(states[i], c) && WorksUnderFlag(states[i], d) ==> c == d
    ensures forall c: nat, d: nat, w: nat, v: nat :: Starts(states[i], c, w) && Starts(states[i], d, v) ==> c == d
  {
    LockAlways(states, steps, i);
    var s := states[i];
    forall c: nat | c in s.cycles && (Active(s.cycles[c]) || WorksUnderFlag(s, c)) ensures OwnedBy(s, c) {
      assert CycleOk(s, c);
    }
    forall c: nat, w: nat | Starts(s, c, w) ensures OwnedBy(s, c) && WorksUnderFlag(s, c) {
      assert s.cycles[c].workers[w] in s.cycles[c].workers;
    }
  }

  /** Every cycle that works under a raised flag owns the unexpired key. */
  ghost predicate Truthful(s: State) {
    forall c :: WorksUnderFlag(s, c) ==> OwnedBy(s, c)
  }

  // A continuation with prompt replies that orphans no worker of its own.
  ghost predicate PromptFrom(s: State, states: seq<State>, steps: seq<Step>) {
    && |states| == |steps| + 1 && states[0] == s
    && (forall i :: 0 <= i < |steps| ==> Linked(states[i], steps[i], states[i + 1]) && !Orphans(states[i], steps[i]))
    && (forall i :: 0 <= i < |states| ==> Prompt(states[i]))
  }

  ghost predicate TruthfulFrom(s: State) {
    forall states: seq<State>, steps: seq<Step> :: PromptFrom(s, states, steps) ==> Truthful(states[|steps|])
  }

  lemma {:induction false} LockFrom(s: State, states: seq<State>, steps: seq<Step>, i: nat)
    requires LockInv(s) && PromptFrom(s, states, steps) && i < |states|
    ensures LockInv(states[i])
  {
    if i > 0 {
      LockFrom(s, states, steps, i - 1);
      assert Linked(states[i - 1], steps[i - 1], states[i]);
      LockStep(states[i - 1], steps[i - 1]);
    }
  }

  lemma OwnedIsTruthful(s: State)
    requires LockInv(s) && Prompt(s)
    ensures Truthful(s)
  {
    forall c | WorksUnderFlag(s, c) ensures OwnedBy(s, c) { assert CycleOk(s, c); }
  }

  lemma OrphanGoesOn(s: State, step: Step) returns (states: seq<State>, steps: seq<Step>)
    requires LockInv(s) && Prompt(s) && Enabled(s, step) && Orphans(s, step)
    ensures PromptFrom(Apply(s, step), states, steps) && !Truthful(states[|steps|])
  {
    var mid := Apply(s, step);
    var s' := OrphanRunsUnlocked(s, step);
    states, steps := [mid, s'], [Release(step.c, true)];
    assert Prompt(mid) && Prompt(s');
    assert Linked(mid, steps[0], s');
  }

  /** The exact condition, told by the property alone: after a step of a truthful cycle every prompt
      continuation keeps raised flags truthful if and only if the step is not a rejection beside a
      running worker under a raised flag. */
  lemma TruthfulFromIff(s: State, step: Step)
    requires LockInv(s) && Prompt(s) && Enabled(s, step)
    ensures TruthfulFrom(Apply(s, step)) <==> !Orphans(s, step)
  {
    if Orphans(s, step) {
      var states, steps := OrphanGoesOn(s, step);
    } else {
      LockStep(s, step);
      forall states: seq<State>, steps: seq<Step> | PromptFrom(Apply(s, step), states, steps)
        ensures Truthful(states[|steps|])
      {
        LockFrom(Apply(s, step), states, steps, |steps|);
        OwnedIsTruthful(states[|steps|]);
      }
    }
  }

  // ---- The worker pool ----

  // What holds of the pool whatever its workers do.
  ghost predicate PoolShape(cycle: Cycle) {
    && cycle.started + cycle.queue == Count(cycle.groups)
    && |cycle.workers| == (if cycle.concurrency < cycle.groups then cycle.concurrency else cycle.groups)
    && (cycle.phase == Loading ==> cycle.workers == [] && cycle.groups == 0)
  }

  lemma ShapeStep(s: State, step: Step, s': State, c: nat)
    requires Enabled(s, step) && s' == Apply(s, step) && c in s'.cycles
    requires c in s.cycles ==> PoolShape(s.cycles[c])
    requires forall d :: d in s.cycles ==> d < s.next
    ensures PoolShape(s'.cycles[c])
  {
    if step.Turn? && step.c == c {
      var cycle, cycle' := s.cycles[c], s'.cycles[c];
      if cycle.held && cycle.queue != [] { assert cycle'.started + cycle'.queue == cycle.started + cycle.queue; }
    } else if step.Load? && step.c == c {
      assert s.cycles[c].started == [] by { assert |Count(0)| == 0; }
      assert [] + Count(step.groups) == Count(step.groups);
    }
  }

  lemma {:induction false} ShapeAlways(states: seq<State>, steps: seq<Step>, i: nat, c: nat)
    requires Behaviour(states, steps) && i < |states|
    ensures c in states[i].cycles ==> PoolShape(states[i].cycles[c])
    ensures forall d :: d in states[i].cycles ==> d < states[i].next
  {
    if i > 0 {
      ShapeAlways(states, steps, i - 1, c);
      assert Linked(states[i - 1], steps[i - 1], states[i]);
      if c in states[i].cycles {
        ShapeStep(states[i - 1], steps[i - 1], states[i], c);
      }
    }
  }

  /** Worker pool: in every run, rejections included, the locations taken so far followed by those
      waiting are exactly 0, 1, ..., n-1 (so each is taken at most once, in order), there are as many
      workers as `concurrency` and the locations allow, and at most `concurrency` are in flight. */
  lemma PoolTakesEachOnce(states: seq<State>, steps: seq<Step>, i: nat, c: nat)
    requires Behaviour(states, steps) && i < |states| && c in states[i].cycles
    ensures var cycle := states[i].cycles[c];
            && cycle.started + cycle.queue == Count(cycle.groups)
            && InFlight(cycle.workers) <= cycle.concurrency
            && |cycle.workers| == (if cycle.concurrency < cycle.groups then cycle.concurrency else cycle.groups)
  {
    ShapeAlways(states, steps, i, c);
    InFlightBounded(states[i].cycles[c].workers);
  }

  // What holds while no worker of the cycle has rejected.
  ghost predicate PoolOk(cycle: Cycle) {
    && PoolShape(cycle)
    && (cycle.groups > 0 ==> cycle.workers != [])
    && (forall g :: g in cycle.started ==> g in cycle.polled || Busy(g) in cycle.workers)
    && (forall g :: Busy(g) in cycle.workers ==> g in cycle.started)
    && cycle.polled <= (set g | g in cycle.started)
    && (Done in cycle.workers && cycle.held ==> cycle.queue == [])
    && (cycle.phase == Releasing || cycle.phase == Closed ==> forall w :: w in cycle.workers ==> w == Done)
  }

  lemma SwapWorker(ws: seq<Worker>, w: nat, v: Worker)
    requires w < |ws|
    ensures forall x :: x in ws[w := v] ==> x in ws || x == v
    ensures v in ws[w := v]
    ensures forall x :: x in ws && x != ws[w] ==> x in ws[w := v]
  {
    assert ws[w := v][w] == v;
    forall x | x in ws && x != ws[w] ensures x in ws[w := v] {
      var i :| 0 <= i < |ws| && ws[i] == x;
      assert ws[w := v][i] == x;
    }
  }

  lemma TurnPool(cycle: Cycle, w: nat)
    requires PoolOk(cycle) && w < |cycle.workers| && cycle.workers[w] == Idle
    ensures PoolOk(Turned(cycle, w))
  {
    var cycle' := Turned(cycle, w);
    SwapWorker(cycle.workers, w, cycle'.workers[w]);
    assert cycle.workers[w] in cycle.workers;
    if cycle.held && cycle.queue != [] {
      assert cycle'.started + cycle'.queue == cycle.started + cycle.queue;
    }
  }

  lemma PolledPool(cycle: Cycle, w: nat)
    requires PoolOk(cycle) && w < |cycle.workers| && cycle.workers[w].Busy?
    ensures PoolOk(cycle.(polled := cycle.polled + {cycle.workers[w].group}, workers := cycle.workers[w := Idle]))
  {
    SwapWorker(cycle.workers, w, Idle);
    assert cycle.workers[w] in cycle.workers;
  }

  lemma LoadPool(cycle: Cycle, groups: nat, concurrency: nat)
    requires PoolOk(cycle) && cycle.phase == Loading && groups > 0 && concurrency > 0
    ensures var pool := if concurrency < groups then concurrency else groups;
            PoolOk(cycle.(phase := Polling, groups := groups, concurrency := concurrency,
                          queue := Count(groups), workers := seq(pool, _ => Idle)))
  {
    assert cycle.started + cycle.queue == [] && cycle.started == [];
    assert [] + Count(groups) == Count(groups);
  }

  lemma PoolStep(s: State, step: Step, s': State, c: nat)
    requires Enabled(s, step) && !(step.Reject? && step.c == c) && s' == Apply(s, step) && c in s'.cycles
    requires c in s.cycles ==> PoolOk(s.cycles[c])
    requires forall d :: d in s.cycles ==> d < s.next
    ensures PoolOk(s'.cycles[c])
  {
    match step
    case Turn(d, w) => if d == c { TurnPool(s.cycles[c], w); }
    case Polled(d, w) => if d == c { PolledPool(s.cycles[c], w); }
    case Load(d, groups, concurrency) => if d == c { LoadPool(s.cycles[c], groups, concurrency); }
    case _ =>
  }

  lemma {:induction false} PoolAlways(states: seq<State>, steps: seq<Step>, i: nat, c: nat)
    requires Behaviour(states, steps) && i < |states|
    requires forall k :: 0 <= k < |steps| ==> !(steps[k].Reject? && steps[k].c == c)
    ensures c in states[i].cycles ==> PoolOk(states[i].cycles[c])
    ensures forall d :: d in states[i].cycles ==> d < states[i].next
  {
    if i > 0 {
      PoolAlways(states, steps, i - 1, c);
      assert Linked(states[i - 1], steps[i - 1], states[i]);
      if c in states[i].cycles {
        PoolStep(states[i - 1], steps[i - 1], states[i], c);
      }
    }
  }

  function InFlight(workers: seq<Worker>): nat {
    if workers == [] then 0 else (if workers[0].Busy? then 1 else 0) + InFlight(workers[1..])
  }

  lemma {:induction false} InFlightBounded(workers: seq<Worker>)
    ensures InFlight(workers) <= |workers|
  {
    if workers != [] { InFlightBounded(workers[1..]); }
  }

  /** A finished cycle that never lost the lock, and none of whose workers rejected, polled every
      location. */
  lemma FinishedPoolPolledAll(states: seq<State>, steps: seq<Step>, i: nat, c: nat)
    requires Behaviour(states, steps) && i < |states| && c in states[i].cycles
    requires forall k :: 0 <= k < |steps| ==> !(steps[k].Reject? && steps[k].c == c)
    requires states[i].cycles[c].held
    requires states[i].cycles[c].phase == Releasing || states[i].cycles[c].phase == Closed
    ensures states[i].cycles[c].polled == set g | g in Count(states[i].cycles[c].groups)
  {
    PoolAlways(states, steps, i, c);
    var cycle := states[i].cycles[c];
    if cycle.groups > 0 {
      assert cycle.workers[0] in cycle.workers && cycle.queue == [];
      assert cycle.started == Count(cycle.groups);
      forall g | g in cycle.started ensures g in cycle.polled {
        assert Busy(g) !in cycle.workers;
      }
    }
  }

  /** Losing the lock stops every worker, even after a rejection: once the flag is down it stays down
      and no further location is taken. */
  lemma {:induction false} DroppedFlagStopsWorkers(states: seq<State>, steps: seq<Step>, i: nat, j: nat, c: nat)
    requires Behaviour(states, steps) && i <= j < |states|
    requires c in states[i].cycles && !states[i].cycles[c].held && c < states[i].next
    ensures c in states[j].cycles ==>
              !states[j].cycles[c].held && states[j].cycles[c].started == states[i].cycles[c].started
    ensures c < states[j].next
    decreases j
  {
    if i < j {
      DroppedFlagStopsWorkers(states, steps, i, j - 1, c);
      assert Linked(states[j - 1], steps[j - 1], states[j]);
    }
  }

  // The cycle is reading its triggers or has a worker that is not done.
  ghost predicate Unfinished(s: State, c: nat) {
    c in s.cycles && (s.cycles[c].phase == Loading || exists v :: v in s.cycles[c].workers && v != Done)
  }

  ghost predicate Solo(s: State) {
    forall c, d :: Unfinished(s, c) && Unfinished(s, d) ==> c == d
  }

  // The lock is acquired, its key gone or lapsed, while a cycle has work in flight.
  ghost predicate AcquiresTooEarly(s: State, step: Step) {
    step.Acquire? && !Held(s) && exists c :: Unfinished(s, c)
  }

  lemma NobodyElseStarts(s: State, step: Step, c: nat)
    requires Enabled(s, step) && !(step.Acquire? && !Held(s)) && Unfinished(Apply(s, step), c)
    ensures Unfinished(s, c)
  {
    if !step.Tick? && !step.Acquire? && step.c == c && s.cycles[c].phase != Loading {
      var s' := Apply(s, step);
      var v :| v in s'.cycles[c].workers && v != Done;
      var i :| 0 <= i < |s'.cycles[c].workers| && s'.cycles[c].workers[i] == v;
      assert s.cycles[c].workers[i] in s.cycles[c].workers;
    }
  }

  /** While the flags are truthful, overlap only ever comes from behind a dropped flag: at an acquire
      with work in flight, every unfinished cycle has already been told that its lock is gone. */
  lemma OverlapHasFlagDown(s: State, step: Step, c: nat)
    requires LockInv(s) && Prompt(s) && AcquiresTooEarly(s, step) && Unfinished(s, c)
    ensures !s.cycles[c].held
  {
    assert CycleOk(s, c);
  }

  /** Exactly when two cycles of a shard come to overlap: when the lock is acquired while the work of
      an earlier cycle is still in flight. */
  lemma SoloKeptIff(s: State, step: Step)
    requires Solo(s) && Enabled(s, step) && forall c :: c in s.cycles ==> c < s.next
    ensures Solo(Apply(s, step)) <==> !AcquiresTooEarly(s, step)
  {
    var s' := Apply(s, step);
    if step.Acquire? && !Held(s) {
      assert Unfinished(s', s.next);
      forall c | c != s.next ensures Unfinished(s', c) <==> Unfinished(s, c) {}
    } else {
      forall c | Unfinished(s', c) ensures Unfinished(s, c) { NobodyElseStarts(s, step, c); }
    }
  }
}
