/** When a SENT row is SENT for good. A row reading SENT stays so in every continuation exactly when the
    alert has left the retry machinery: whatever is still on its way can, failing at every rung without
    ever reaching the channel, come to write FAILED over it. */
module Settlement {
  import opened Domain
  import opened DeliveryLog
  import opened Delivery
  import opened Lease
  import Coverage
  import Ladder

  // ---- Continuations ----

  // Neither deletes the pair's row nor publishes the alert anew.
  predicate LeavesAlone(step: Step, p: Pair) {
    !(step.Wipe? && step.p == p) && !(step.Inject? && step.body == Alert(p))
  }

  ghost predicate RunsFrom(cfg: Config, s: State, p: Pair, states: seq<State>, steps: seq<Step>) {
    && |states| == |steps| + 1 && states[0] == s
    && forall i :: 0 <= i < |steps| ==> Linked(cfg, states[i], steps[i], states[i + 1]) && LeavesAlone(steps[i], p)
  }

  // A retry copy comes back right after a wait of at least the delay of its stage.
  predicate WaitedOut(delays: seq<nat>, last: Step, s: State, c: nat) {
    && last.Tick? && c in s.copies && s.copies[c].place.Retry?
    && (1 <= s.copies[c].place.stage <= |delays| ==> last.elapsed >= delays[s.copies[c].place.stage - 1])
  }

  ghost predicate Patient(delays: seq<nat>, states: seq<State>, steps: seq<Step>) {
    |states| == |steps| + 1 &&
    forall i :: 0 <= i < |steps| && steps[i].ExpireRetry? ==>
      0 < i && WaitedOut(delays, steps[i - 1], states[i], steps[i].c)
  }

  // The row reads SENT at the end of every continuation.
  ghost predicate SentFrom(cfg: Config, s: State, p: Pair) {
    forall states: seq<State>, steps: seq<Step> :: RunsFrom(cfg, s, p, states, steps) ==> IsSent(states[|steps|].log, p)
  }

  // Nothing of the alert is on its way: no copy outside the dead queue, no handler that could still
  // fail.
  ghost predicate Quiescent(s: State, p: Pair) {
    && (forall c :: c in s.copies && s.copies[c].body == Alert(p) ==> s.copies[c].place == Dead)
    && (forall h :: h in s.handlers && s.handlers[h].body == Alert(p) ==> AtRest(s.handlers[h].pc))
  }

  predicate AtRest(pc: Pc) {
    pc.Park? || pc.Ack?
  }

  // ---- Quiescent is for good ----

  // Other alerts' copies and handlers may do anything; this one's only come to rest.
  ghost predicate RestKept(s: State, s': State, p: Pair) {
    && (forall c :: c in s'.copies && s'.copies[c].body == Alert(p) && s'.copies[c].place != Dead ==>
          c in s.copies && s.copies[c].body == Alert(p) && s.copies[c].place != Dead)
    && (forall h :: h in s'.handlers && s'.handlers[h].body == Alert(p) && !AtRest(s'.handlers[h].pc) ==>
          h in s.handlers && s.handlers[h].body == Alert(p) && !AtRest(s.handlers[h].pc))
  }

  // A handler of another message moves or ends; the broker is left alone.
  lemma OtherRests(s: State, s': State, h: nat, p: Pair)
    requires h in s.handlers && s.handlers[h].body != Alert(p) && s'.copies == s.copies
    requires || s'.handlers == s.handlers - {h}
             || (h in s'.handlers && s'.handlers[h].body == s.handlers[h].body
                 && s'.handlers == s.handlers[h := s'.handlers[h]])
    ensures RestKept(s, s', p)
  {}

  lemma ClaimRests(cfg: Config, s: State, step: Step, s': State, p: Pair)
    requires Quiescent(s, p) && Enabled(cfg, s, step) && s' == Apply(cfg, s, step)
    requires step.Begin? || step.InsertRow? || step.TakeOverRow? || step.ReadRow?
    ensures RestKept(s, s', p)
  {
    OtherRests(s, s', step.h, p);
  }

  lemma SettleRests(cfg: Config, s: State, step: Step, s': State, p: Pair)
    requires Quiescent(s, p) && Enabled(cfg, s, step) && s' == Apply(cfg, s, step)
    requires step.SendOk? || step.SendFail? || step.SettleSentRow? || step.ReleaseRow? || step.SettleFailedRow?
    ensures RestKept(s, s', p)
  {
    OtherRests(s, s', step.h, p);
  }

  lemma ExitRests(s: State, s': State, h: nat, p: Pair)
    requires s'.handlers == s.handlers - {h}
    requires s'.copies == s.copies || (h in s.handlers && s'.copies == s.copies - {s.handlers[h].copy})
    ensures RestKept(s, s', p)
  {}

  lemma PublishRests(
      cfg: Config, s: State, h: nat, attempts: nat, place: Place, outcome: Outcome, s': State, p: Pair)
    requires h in s.handlers && (s.handlers[h].body != Alert(p) || place == Dead)
    requires s' == PublishedOn(cfg, s, h, attempts, place, outcome)
    ensures RestKept(s, s', p)
  {}

  lemma BrokerRests(cfg: Config, s: State, step: Step, s': State, p: Pair)
    requires Quiescent(s, p) && Enabled(cfg, s, step) && s' == Apply(cfg, s, step) && LeavesAlone(step, p)
    requires step.Tick? || step.Inject? || step.Overflow? || step.Wipe?
    ensures RestKept(s, s', p)
  {}

  lemma CopyRests(cfg: Config, s: State, step: Step, s': State, p: Pair)
    requires Quiescent(s, p) && Enabled(cfg, s, step) && s' == Apply(cfg, s, step)
    requires step.Deliver? || step.Requeue? || step.ExpireRetry?
    ensures RestKept(s, s', p)
  {}

  lemma QuiescentStep(cfg: Config, s: State, step: Step, s': State, p: Pair)
    requires Quiescent(s, p) && IsSent(s.log, p) && Linked(cfg, s, step, s') && LeavesAlone(step, p)
    ensures Quiescent(s', p) && IsSent(s'.log, p)
  {
    SentKeptIff(cfg, s, step, p);
    if step.Begin? || step.InsertRow? || step.TakeOverRow? || step.ReadRow? {
      ClaimRests(cfg, s, step, s', p);
    } else if step.SendOk? || step.SendFail? || step.SettleSentRow? || step.ReleaseRow? || step.SettleFailedRow? {
      SettleRests(cfg, s, step, s', p);
    } else if step.AckCopy? || step.Crash? {
      ExitRests(s, s', step.h, p);
    } else if step.PublishRetry? {
      var m := s.handlers[step.h];
      PublishRests(cfg, s, step.h, m.attempts + 1, Retry(m.attempts + 1), step.outcome, s', p);
    } else if step.PublishDead? {
      PublishRests(cfg, s, step.h, s.handlers[step.h].attempts, Dead, step.outcome, s', p);
    } else if step.Deliver? || step.Requeue? || step.ExpireRetry? {
      CopyRests(cfg, s, step, s', p);
    } else {
      BrokerRests(cfg, s, step, s', p);
    }
  }

  lemma {:induction false} QuiescentAlways(
      cfg: Config, s: State, p: Pair, states: seq<State>, steps: seq<Step>, i: nat)
    requires Quiescent(s, p) && IsSent(s.log, p) && RunsFrom(cfg, s, p, states, steps) && i < |states|
    ensures Quiescent(states[i], p) && IsSent(states[i].log, p)
  {
    if i > 0 {
      QuiescentAlways(cfg, s, p, states, steps, i - 1);
      assert Linked(cfg, states[i - 1], steps[i - 1], states[i]);
      QuiescentStep(cfg, states[i - 1], steps[i - 1], states[i], p);
    }
  }

  // ---- Whatever is on its way can come to FAILED ----

  // Some patient continuation of `s0` ends in `s`.
  ghost predicate Continues(cfg: Config, s0: State, p: Pair, delays: seq<nat>, s: State) {
    exists states: seq<State>, steps: seq<Step> ::
      RunsFrom(cfg, s0, p, states, steps) && Patient(delays, states, steps) && states[|steps|] == s
  }

  lemma Stays(cfg: Config, s: State, p: Pair, delays: seq<nat>)
    ensures Continues(cfg, s, p, delays, s)
  {
    var states, steps: seq<Step> := [s], [];
    assert RunsFrom(cfg, s, p, states, steps) && Patient(delays, states, steps) && states[|steps|] == s;
  }

  lemma Longer(
      cfg: Config, s0: State, p: Pair, delays: seq<nat>, states: seq<State>, steps: seq<Step>, step: Step, s': State)
    requires RunsFrom(cfg, s0, p, states, steps) && Patient(delays, states, steps)
    requires Linked(cfg, states[|steps|], step, s') && LeavesAlone(step, p)
    requires step.ExpireRetry? ==>
               steps != [] && WaitedOut(delays, steps[|steps| - 1], states[|steps|], step.c)
    ensures RunsFrom(cfg, s0, p, states + [s'], steps + [step]) && Patient(delays, states + [s'], steps + [step])
  {
    var states', steps' := states + [s'], steps + [step];
    forall i | 0 <= i < |steps'|
      ensures Linked(cfg, states'[i], steps'[i], states'[i + 1]) && LeavesAlone(steps'[i], p)
    {
      if i < |steps| { assert Linked(cfg, states[i], steps[i], states[i + 1]) && LeavesAlone(steps[i], p); }
    }
    forall i | 0 <= i < |steps'| && steps'[i].ExpireRetry?
      ensures 0 < i && WaitedOut(delays, steps'[i - 1], states'[i], steps'[i].c)
    {
      if i < |steps| { assert steps'[i] == steps[i] && steps'[i - 1] == steps[i - 1] && states'[i] == states[i]; }
    }
  }

  lemma Goes(cfg: Config, s0: State, p: Pair, delays: seq<nat>, s: State, step: Step) returns (s': State)
    requires Continues(cfg, s0, p, delays, s) && Enabled(cfg, s, step) && LeavesAlone(step, p) && !step.ExpireRetry?
    ensures s' == Apply(cfg, s, step) && Continues(cfg, s0, p, delays, s')
  {
    s' := Apply(cfg, s, step);
    var states: seq<State>, steps: seq<Step> :|
      RunsFrom(cfg, s0, p, states, steps) && Patient(delays, states, steps) && states[|steps|] == s;
    Longer(cfg, s0, p, delays, states, steps, step, s');
    assert (states + [s'])[|steps + [step]|] == s';
  }

  function Returned(s: State, c: nat): State
    requires c in s.copies
  {
    s.(copies := s.copies[c := s.copies[c].(place := Main)])
  }

  lemma TickAndReturn(cfg: Config, s: State, c: nat, delay: nat)
    requires c in s.copies && s.copies[c].place.Retry?
    ensures var late := s.(clock := s.clock + delay);
            Linked(cfg, s, Tick(delay), late) && Linked(cfg, late, ExpireRetry(c), Returned(late, c))
  {}

  // A retry copy waits its delay out and is back in the main queue.
  lemma Waits(cfg: Config, s0: State, p: Pair, delays: seq<nat>, s: State, c: nat) returns (s': State)
    requires Continues(cfg, s0, p, delays, s) && c in s.copies && s.copies[c].place.Retry?
    ensures Continues(cfg, s0, p, delays, s') && c in s'.copies && s'.copies[c] == s.copies[c].(place := Main)
  {
    var stage := s.copies[c].place.stage;
    var delay: nat := if 1 <= stage <= |delays| then delays[stage - 1] else 0;
    var states: seq<State>, steps: seq<Step> :|
      RunsFrom(cfg, s0, p, states, steps) && Patient(delays, states, steps) && states[|steps|] == s;
    s' := WaitsAfter(cfg, s0, p, delays, states, steps, c, delay);
  }

  lemma WaitsAfter(
      cfg: Config, s0: State, p: Pair, delays: seq<nat>, states: seq<State>, steps: seq<Step>, c: nat, delay: nat)
    returns (s': State)
    requires RunsFrom(cfg, s0, p, states, steps) && Patient(delays, states, steps)
    requires WaitedOut(delays, Tick(delay), states[|steps|], c)
    ensures Continues(cfg, s0, p, delays, s') && c in states[|steps|].copies
    ensures s' == Returned(states[|steps|].(clock := states[|steps|].clock + delay), c)
  {
    var s := states[|steps|];
    var late := s.(clock := s.clock + delay);
    s' := Returned(late, c);
    TickAndReturn(cfg, s, c, delay);
    Longer(cfg, s0, p, delays, states, steps, Tick(delay), late);
    var states', steps' := states + [late], steps + [Tick(delay)];
    assert steps'[|steps'| - 1] == Tick(delay) && states'[|steps'|] == late;
    Longer(cfg, s0, p, delays, states', steps', ExpireRetry(c), s');
    assert (states' + [s'])[|steps' + [ExpireRetry(c)]|] == s';
  }

  // A handler that has given up, or is about to climb.
  lemma GivesUp(cfg: Config, s0: State, p: Pair, delays: seq<nat>, s: State, h: nat) returns (s': State)
    requires Continues(cfg, s0, p, delays, s) && p.channel in cfg.queues
    requires h in s.handlers && s.handlers[h].body == Alert(p)
    requires s.handlers[h].pc.SettleFailed? || (s.handlers[h].pc.Republish? && s.handlers[h].attempts < cfg.stages)
    ensures Continues(cfg, s0, p, delays, s') && !IsSent(s'.log, p)
    decreases cfg.stages - s.handlers[h].attempts, 0
  {
    if s.handlers[h].pc.SettleFailed? {
      s' := Goes(cfg, s0, p, delays, s, SettleFailedRow(h, Answered));
    } else {
      s' := Goes(cfg, s0, p, delays, s, PublishRetry(h, Answered));
      s' := Climbs(cfg, s0, p, delays, s', s.next);
    }
  }

  // A copy on its way, delivered to a handler whose insert fails.
  lemma Climbs(cfg: Config, s0: State, p: Pair, delays: seq<nat>, s: State, c: nat) returns (s': State)
    requires Continues(cfg, s0, p, delays, s) && p.channel in cfg.queues
    requires c in s.copies && s.copies[c].body == Alert(p) && s.copies[c].place != Dead
    requires s.copies[c].attempts <= cfg.stages
    ensures Continues(cfg, s0, p, delays, s') && !IsSent(s'.log, p)
    decreases cfg.stages - s.copies[c].attempts, 1
  {
    s' := s;
    if s.copies[c].place.Unacked? {
      s' := Goes(cfg, s0, p, delays, s, Requeue(c));
    } else if s.copies[c].place.Retry? {
      s' := Waits(cfg, s0, p, delays, s, c);
    }
    s' := Delivered(cfg, s0, p, delays, s', c);
    s' := GivesUp(cfg, s0, p, delays, s', s'.next - 1);
  }

  lemma Delivered(cfg: Config, s0: State, p: Pair, delays: seq<nat>, s: State, c: nat) returns (s': State)
    requires Continues(cfg, s0, p, delays, s) && p.channel in cfg.queues
    requires c in s.copies && s.copies[c].body == Alert(p) && s.copies[c].place == Main
    requires s.copies[c].attempts <= cfg.stages
    ensures Continues(cfg, s0, p, delays, s') && s'.next == s.next + 1
    ensures && s.next in s'.handlers && s'.handlers[s.next].body == Alert(p)
            && s'.handlers[s.next].attempts == s.copies[c].attempts
            && s'.handlers[s.next].pc == AfterFailure(cfg, s'.handlers[s.next], false)
  {
    var h := s.next;
    s' := Goes(cfg, s0, p, delays, s, Deliver(c));
    s' := Goes(cfg, s0, p, delays, s', Begin(h, 0));
    s' := Goes(cfg, s0, p, delays, s', InsertRow(h, ErrLost));
  }

  // Any handler that is not at rest has a way to fail: each of its statements may.
  function Faltering(pc: Pc, h: nat): Step {
    match pc
    case Insert(_, _) => InsertRow(h, ErrLost)
    case TakeOver(_, _) => TakeOverRow(h, ErrLost)
    case ReadBack(_) => ReadRow(h, ErrLost)
    case SettleSent(_) => SettleSentRow(h, ErrLost)
    case _ => ReleaseRow(h, ErrLost)
  }

  predicate MayMiss(pc: Pc) {
    pc.Insert? || pc.TakeOver? || pc.ReadBack? || pc.SettleSent? || pc.Release?
  }

  lemma Misses(cfg: Config, s0: State, p: Pair, delays: seq<nat>, s: State, h: nat) returns (s': State)
    requires Continues(cfg, s0, p, delays, s) && p.channel in cfg.queues
    requires h in s.handlers && s.handlers[h].body == Alert(p) && Ladder.HandlerOnLadder(cfg, s.handlers[h])
    requires MayMiss(s.handlers[h].pc)
    ensures Continues(cfg, s0, p, delays, s') && !IsSent(s'.log, p)
  {
    s' := Goes(cfg, s0, p, delays, s, Faltering(s.handlers[h].pc, h));
    assert h in s'.handlers && s'.handlers[h].attempts == s.handlers[h].attempts;
    s' := GivesUp(cfg, s0, p, delays, s', h);
  }

  lemma Falters(cfg: Config, s0: State, p: Pair, delays: seq<nat>, s: State, h: nat) returns (s': State)
    requires Continues(cfg, s0, p, delays, s) && p.channel in cfg.queues
    requires h in s.handlers && s.handlers[h].body == Alert(p) && !AtRest(s.handlers[h].pc)
    requires Ladder.HandlerOnLadder(cfg, s.handlers[h])
    ensures Continues(cfg, s0, p, delays, s') && !IsSent(s'.log, p)
  {
    var pc := s.handlers[h].pc;
    if pc.Start? {
      s' := Goes(cfg, s0, p, delays, s, Begin(h, 0));
      s' := Misses(cfg, s0, p, delays, s', h);
    } else if pc.Sending? {
      s' := Goes(cfg, s0, p, delays, s, SendFail(h, false));
      s' := Misses(cfg, s0, p, delays, s', h);
    } else if pc.SettleFailed? || pc.Republish? {
      s' := GivesUp(cfg, s0, p, delays, s, h);
    } else {
      s' := Misses(cfg, s0, p, delays, s, h);
    }
  }

  /** SENT for good: at any point of any run at which the row of a pair reads SENT, it reads SENT in
      every continuation that neither deletes it nor publishes the alert anew if and only if no copy of
      the alert is outside the dead queue and every handler of it is parking or acknowledging. If not,
      a continuation that waits out every delay ends with the row no longer SENT. */
  lemma SentForGoodIff(
      cfg: Config, states: seq<State>, steps: seq<Step>, i: nat, p: Pair, delays: seq<nat>)
    requires Behaviour(cfg, states, steps) && i < |states| && IsSent(states[i].log, p)
    ensures SentFrom(cfg, states[i], p) <==> Quiescent(states[i], p)
    ensures !Quiescent(states[i], p) ==> exists s :: Continues(cfg, states[i], p, delays, s) && !IsSent(s.log, p)
  {
    var s := states[i];
    if Quiescent(s, p) {
      forall later: seq<State>, more: seq<Step> | RunsFrom(cfg, s, p, later, more)
        ensures IsSent(later[|more|].log, p)
      {
        QuiescentAlways(cfg, s, p, later, more, |more|);
      }
    } else {
      var s' := NotQuiescent(cfg, states, steps, i, p, delays);
      var later: seq<State>, more: seq<Step> :|
        RunsFrom(cfg, s, p, later, more) && Patient(delays, later, more) && later[|more|] == s';
    }
  }

  lemma NotQuiescent(
      cfg: Config, states: seq<State>, steps: seq<Step>, i: nat, p: Pair, delays: seq<nat>)
    returns (s': State)
    requires Behaviour(cfg, states, steps) && i < |states| && !Quiescent(states[i], p)
    ensures Continues(cfg, states[i], p, delays, s') && !IsSent(s'.log, p)
  {
    var s := states[i];
    Ladder.HeadersAlways(cfg, states, steps, i);
    Ladder.CoverAlways(cfg, states, steps, i);
    Stays(cfg, s, p, delays);
    if c :| c in s.copies && s.copies[c].body == Alert(p) && s.copies[c].place != Dead {
      assert Ladder.CopyOnLadder(cfg, s.copies[c]);
      s' := Climbs(cfg, s, p, delays, s, c);
    } else {
      var h :| h in s.handlers && s.handlers[h].body == Alert(p) && !AtRest(s.handlers[h].pc);
      assert Ladder.HandlerOnLadder(cfg, s.handlers[h]) && Coverage.HandlerSafe(cfg, s, s.handlers[h]);
      s' := Falters(cfg, s, p, delays, s, h);
    }
  }
}
