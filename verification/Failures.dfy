/** Which failures are retried, over whole runs: told from what the channel answered and how many
    attempts the message has behind it. */
module Failures {
  import opened Domain
  import opened DeliveryLog
  import opened Delivery
  import Ladder

  // The channel refused for good, at some step before `n`.
  ghost predicate RefusedBefore(steps: seq<Step>, n: nat, h: nat) {
    exists i :: 0 <= i < n && i < |steps| && steps[i] == SendFail(h, true)
  }

  // ---- A refusal for good is never retried ----

  predicate GivenUp(pc: Pc) {
    (pc.Release? && pc.permanent) || pc.SettleFailed? || pc.Park? || pc.Ack?
  }

  // Ids are not reused, so a handler that has ended stays ended.
  ghost predicate Doomed(s: State, h: nat) {
    h < s.next && (h in s.handlers ==> GivenUp(s.handlers[h].pc))
  }

  lemma DoomedOwnStep(cfg: Config, s: State, step: Step, s': State, h: nat)
    requires Doomed(s, h) && Linked(cfg, s, step, s') && h in s.handlers
    requires || step == AckCopy(h) || step == Crash(h)
             || ((step.ReleaseRow? || step.SettleFailedRow? || step.PublishDead?) && step.h == h)
    ensures Doomed(s', h)
  {}

  lemma DoomedStep(cfg: Config, s: State, step: Step, s': State, h: nat)
    requires Doomed(s, h) && Linked(cfg, s, step, s')
    ensures Doomed(s', h)
  {
    if step.ReleaseRow? || step.SettleFailedRow? || step.PublishDead? || step.AckCopy? || step.Crash? {
      if step.h == h { DoomedOwnStep(cfg, s, step, s', h); }
    }
  }

  lemma RefusalDooms(cfg: Config, s: State, h: nat, s': State)
    requires h < s.next && Linked(cfg, s, SendFail(h, true), s')
    ensures Doomed(s', h)
  {}

  lemma {:induction false} DoomedAlways(cfg: Config, states: seq<State>, steps: seq<Step>, i: nat, k: nat, h: nat)
    requires Behaviour(cfg, states, steps) && i < k < |states| && steps[i] == SendFail(h, true)
    ensures Doomed(states[k], h)
    decreases k
  {
    if k == i + 1 {
      Ladder.CoverAlways(cfg, states, steps, i);
      assert Linked(cfg, states[i], steps[i], states[k]);
      RefusalDooms(cfg, states[i], h, states[k]);
    } else {
      DoomedAlways(cfg, states, steps, i, k - 1, h);
      assert Linked(cfg, states[k - 1], steps[k - 1], states[k]);
      DoomedStep(cfg, states[k - 1], steps[k - 1], states[k], h);
    }
  }

  // ---- Only such a refusal, or the last attempt, is settled FAILED ----

  predicate Ending(pc: Pc) {
    (pc.Release? && pc.permanent) || pc.SettleFailed?
  }

  ghost predicate HasCause(cfg: Config, s: State, steps: seq<Step>, n: nat, h: nat) {
    h in s.handlers && Ending(s.handlers[h].pc) ==> s.handlers[h].attempts >= cfg.stages || RefusedBefore(steps, n, h)
  }

  ghost predicate EndsFor(cfg: Config, s: State, step: Step, s': State, h: nat) {
    h in s'.handlers && Ending(s'.handlers[h].pc) ==>
      || step == SendFail(h, true)
      || s'.handlers[h].attempts >= cfg.stages
      || (h in s.handlers && Ending(s.handlers[h].pc) && s.handlers[h].attempts == s'.handlers[h].attempts)
  }

  lemma EndingClaim(cfg: Config, s: State, step: Step, s': State, h: nat)
    requires Linked(cfg, s, step, s') && (step.Begin? || step.InsertRow? || step.TakeOverRow? || step.ReadRow?)
    ensures EndsFor(cfg, s, step, s', h)
  {}

  lemma EndingSend(cfg: Config, s: State, step: Step, s': State, h: nat)
    requires Linked(cfg, s, step, s')
    requires step.SendOk? || step.SendFail? || step.SettleSentRow? || step.ReleaseRow? || step.SettleFailedRow?
    ensures EndsFor(cfg, s, step, s', h)
  {}

  // A step brings a handler to its end only by a refusal or on the last attempt.
  lemma EndingStep(cfg: Config, s: State, step: Step, s': State, h: nat)
    requires Linked(cfg, s, step, s')
    ensures EndsFor(cfg, s, step, s', h)
  {
    if step.Begin? || step.InsertRow? || step.TakeOverRow? || step.ReadRow? {
      EndingClaim(cfg, s, step, s', h);
    } else if step.SendOk? || step.SendFail? || step.SettleSentRow? || step.ReleaseRow? || step.SettleFailedRow? {
      EndingSend(cfg, s, step, s', h);
    }
  }

  lemma {:induction false} CauseAlways(cfg: Config, states: seq<State>, steps: seq<Step>, n: nat, h: nat)
    requires Behaviour(cfg, states, steps) && n < |states|
    ensures HasCause(cfg, states[n], steps, n, h)
  {
    if n > 0 {
      CauseAlways(cfg, states, steps, n - 1, h);
      assert Linked(cfg, states[n - 1], steps[n - 1], states[n]);
      if h in states[n].handlers && Ending(states[n].handlers[h].pc) {
        EndingStep(cfg, states[n - 1], steps[n - 1], states[n], h);
        if RefusedBefore(steps, n - 1, h) {
          var i :| 0 <= i < n - 1 && i < |steps| && steps[i] == SendFail(h, true);
          assert RefusedBefore(steps, n, h);
        }
      }
    }
  }

  /** Retry or end, over every run: a handler republishes onto the ladder only if the channel did not
      refuse for good and a stage is left, and it settles FAILED only if the channel did or this was
      the last attempt. */
  lemma RetriedOrEnded(cfg: Config, states: seq<State>, steps: seq<Step>, k: nat)
    requires Behaviour(cfg, states, steps) && k < |steps|
    ensures steps[k].PublishRetry? ==>
              && steps[k].h in states[k].handlers && states[k].handlers[steps[k].h].attempts < cfg.stages
              && !RefusedBefore(steps, k, steps[k].h)
    ensures steps[k].SettleFailedRow? ==>
              && steps[k].h in states[k].handlers
              && (states[k].handlers[steps[k].h].attempts >= cfg.stages || RefusedBefore(steps, k, steps[k].h))
  {
    assert Linked(cfg, states[k], steps[k], states[k + 1]);
    if steps[k].PublishRetry? {
      var h := steps[k].h;
      Ladder.HeadersStayOnLadder(cfg, states, steps, k);
      if RefusedBefore(steps, k, h) {
        var i :| 0 <= i < k && i < |steps| && steps[i] == SendFail(h, true);
        DoomedAlways(cfg, states, steps, i, k, h);
        assert false;
      }
    } else if steps[k].SettleFailedRow? {
      CauseAlways(cfg, states, steps, k, steps[k].h);
    }
  }
}
