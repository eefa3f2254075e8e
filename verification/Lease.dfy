/** The claim is a lease: while every attempt is over within the lease and no history row is
    deleted, at most one handler per (event, channel) holds it, and sends are accounted for. */
module Lease {
  import opened Domain
  import opened DeliveryLog
  import opened Delivery

  /** Between "claimed" and its release or settle. */
  predicate Holding(h: Handler) {
    h.body.Alert? && (h.pc.Sending? || h.pc.SettleSent? || h.pc.Release?)
  }

  predicate Holds(s: State, h: nat, p: Pair) {
    h in s.handlers && Holding(s.handlers[h]) && s.handlers[h].body.pair == p
  }

  predicate Settling(s: State, h: nat, p: Pair) {
    Holds(s, h, p) && s.handlers[h].pc.SettleSent?
  }

  /** Every attempt in progress is still inside the lease it took. */
  ghost predicate Timely(s: State) {
    forall h :: h in s.handlers && Holding(s.handlers[h]) ==>
                  s.clock <= s.handlers[h].pc.claimedAt + CLAIM_LEASE_MS
  }

  // What a handler's position says about the table.
  ghost predicate HandlerOk(s: State, h: Handler) {
    && (Holding(h) ==>
          && h.body.pair in s.log
          && s.log[h.body.pair].claimedAt == Some(h.pc.claimedAt)
          && s.log[h.body.pair].status != Sent)
    && (h.pc.TakeOver? || h.pc.ReadBack? ==> h.body.Alert? && h.body.pair in s.log)
    && (h.pc.Insert? || h.pc.TakeOver? ==> h.pc.cutoff + CLAIM_LEASE_MS <= h.pc.now <= s.clock)
  }

  ghost predicate Exclusive(s: State) {
    forall g, h, p :: Holds(s, g, p) && Holds(s, h, p) ==> g == h
  }

  ghost predicate LeaseInv(s: State) {
    && (forall h :: h in s.handlers ==> HandlerOk(s, s.handlers[h]))
    && Exclusive(s)
    && (forall h :: h in s.handlers ==> h < s.next)
  }

  /** The one step that can break the lease: a take-over landing on a row whose holder, still
      running, claimed it before the cutoff. */
  ghost predicate LapsedTakeOver(s: State, step: Step) {
    && step.TakeOverRow? && step.outcome.Lands()
    && AlertAt(s, step.h) && s.handlers[step.h].pc.TakeOver?
    && exists g :: Holds(s, g, s.handlers[step.h].body.pair)
                   && s.handlers[g].pc.claimedAt < s.handlers[step.h].pc.cutoff
  }

  /** The other: a deletion of a row that a running handler holds, or still counts on finding. */
  ghost predicate WipesClaim(s: State, step: Step) {
    step.Wipe? && exists h :: h in s.handlers && CountsOnRow(s.handlers[h], step.p)
  }

  predicate CountsOnRow(h: Handler, p: Pair) {
    h.body == Alert(p) && (Holding(h) || h.pc.TakeOver? || h.pc.ReadBack?)
  }

  lemma TimelyNeverLapses(s: State, step: Step)
    requires LeaseInv(s) && Timely(s)
    ensures !LapsedTakeOver(s, step)
  {
    if step.TakeOverRow? && AlertAt(s, step.h) {
      assert HandlerOk(s, s.handlers[step.h]);
    }
  }

  // A step that changes one pair's row keeps every other handler's picture of the table.
  lemma KeepsOthers(s: State, s': State, p: Pair)
    requires LeaseInv(s)
    requires s'.clock >= s.clock && s'.log - {p} == s.log - {p}
    requires p in s.log ==> p in s'.log
    ensures forall h :: h in s.handlers && s.handlers[h].body != Alert(p) ==> HandlerOk(s', s.handlers[h])
  {
    forall h | h in s.handlers && s.handlers[h].body != Alert(p)
      ensures HandlerOk(s', s.handlers[h])
    {
      assert HandlerOk(s, s.handlers[h]);
      if s.handlers[h].body.Alert? {
        var q := s.handlers[h].body.pair;
        assert q in s.log <==> q in s.log - {p};
        assert q in s'.log <==> q in s'.log - {p};
        if q in s.log { assert s.log[q] == (s.log - {p})[q] == (s'.log - {p})[q] == s'.log[q]; }
      }
    }
  }

  lemma LeaseStep(cfg: Config, s: State, step: Step)
    requires LeaseInv(s) && Enabled(cfg, s, step) && !LapsedTakeOver(s, step) && !WipesClaim(s, step)
    ensures LeaseInv(Apply(cfg, s, step))
  {
    if TouchesTable(step) {
      TableStep(cfg, s, step);
    } else {
      QuietSteps(cfg, s, step, Apply(cfg, s, step));
      QuietStep(s, Apply(cfg, s, step));
    }
  }

  lemma TableStep(cfg: Config, s: State, step: Step)
    requires LeaseInv(s) && Enabled(cfg, s, step) && !LapsedTakeOver(s, step) && !WipesClaim(s, step)
    requires TouchesTable(step)
    ensures LeaseInv(Apply(cfg, s, step))
  {
    match step
    case Wipe(p) => WipeStep(s, Apply(cfg, s, step), p);
    case InsertRow(h, outcome) => InsertStep(cfg, s, h, outcome);
    case TakeOverRow(h, outcome) => TakeOverStep(cfg, s, h, outcome);
    case SettleSentRow(h, outcome) => SettleStep(cfg, s, step, h);
    case ReleaseRow(h, outcome) => SettleStep(cfg, s, step, h);
    case SettleFailedRow(h, outcome) => FailStep(cfg, s, h, outcome);
  }

  lemma WipeStep(s: State, s': State, p: Pair)
    requires LeaseInv(s) && s' == s.(log := s.log - {p}) && !WipesClaim(s, Wipe(p))
    ensures LeaseInv(s')
  {
    forall h | h in s'.handlers ensures HandlerOk(s', s'.handlers[h]) {
      assert HandlerOk(s, s.handlers[h]) && !CountsOnRow(s.handlers[h], p);
    }
    forall h, q | Holds(s', h, q) ensures Holds(s, h, q) {}
  }

  lemma WipeBreaks(s: State, step: Step, s': State)
    requires LeaseInv(s) && WipesClaim(s, step) && s' == s.(log := s.log - {step.p})
    ensures !LeaseInv(s')
  {
    var h :| h in s.handlers && CountsOnRow(s.handlers[h], step.p);
    assert !HandlerOk(s', s'.handlers[h]);
  }

  predicate TouchesTable(step: Step) {
    step.InsertRow? || step.TakeOverRow? || step.SettleSentRow? || step.ReleaseRow?
    || step.SettleFailedRow? || step.Wipe?
  }

  // One handler moves on without touching the table: it gains no claim, and keeps the one it has.
  predicate MovesOn(s: State, h: Handler, h': Handler) {
    && h'.body == h.body
    && (Holding(h') ==> Holding(h) && h'.pc.claimedAt == h.pc.claimedAt)
    && (h'.pc.TakeOver? || h'.pc.ReadBack? ==> h'.pc == h.pc)
    && (h'.pc.Insert? ==> h'.pc.cutoff + CLAIM_LEASE_MS <= h'.pc.now <= s.clock || h'.pc == h.pc)
  }

  ghost predicate QuietShape(s: State, s': State) {
    && s'.log == s.log && s.clock <= s'.clock && s.next <= s'.next
    && forall h :: h in s'.handlers ==>
         if h in s.handlers then MovesOn(s, s.handlers[h], s'.handlers[h])
         else h == s.next < s'.next && s'.handlers[h].pc == Start
  }

  lemma QuietSteps(cfg: Config, s: State, step: Step, s': State)
    requires LeaseInv(s) && Enabled(cfg, s, step) && !TouchesTable(step) && s' == Apply(cfg, s, step)
    ensures QuietShape(s, s')
  {
    match step
    case Tick(_) => QuietBroker(cfg, s, step, s');
    case Inject(_) => QuietBroker(cfg, s, step, s');
    case Requeue(_) => QuietBroker(cfg, s, step, s');
    case ExpireRetry(_) => QuietBroker(cfg, s, step, s');
    case Overflow(_) => QuietBroker(cfg, s, step, s');
    case Deliver(_) => QuietDeliver(cfg, s, step, s');
    case Begin(_, _) => QuietLocal(cfg, s, step, s');
    case ReadRow(_, _) => QuietLocal(cfg, s, step, s');
    case SendOk(_) => QuietLocal(cfg, s, step, s');
    case SendFail(_, _) => QuietLocal(cfg, s, step, s');
    case PublishRetry(_, _) => QuietExit(cfg, s, step, s');
    case PublishDead(_, _) => QuietExit(cfg, s, step, s');
    case AckCopy(_) => QuietExit(cfg, s, step, s');
    case Crash(_) => QuietExit(cfg, s, step, s');
  }

  lemma QuietBroker(cfg: Config, s: State, step: Step, s': State)
    requires Enabled(cfg, s, step) && s' == Apply(cfg, s, step)
    requires step.Tick? || step.Inject? || step.Requeue? || step.ExpireRetry? || step.Overflow?
    ensures QuietShape(s, s')
  {}

  lemma QuietLocal(cfg: Config, s: State, step: Step, s': State)
    requires LeaseInv(s) && Enabled(cfg, s, step) && s' == Apply(cfg, s, step)
    requires step.Begin? || step.ReadRow? || step.SendOk? || step.SendFail?
    ensures QuietShape(s, s')
  {
    assert HandlerOk(s, s.handlers[step.h]);
    QuietHandler(s, s', step.h, s'.handlers[step.h]);
  }

  lemma QuietExit(cfg: Config, s: State, step: Step, s': State)
    requires Enabled(cfg, s, step) && s' == Apply(cfg, s, step)
    requires step.PublishRetry? || step.PublishDead? || step.AckCopy? || step.Crash?
    ensures QuietShape(s, s')
  {
    QuietHandler(s, s', step.h, NextHandler(s, s', step.h));
  }

  function NextHandler(s: State, s': State, h: nat): Handler
    requires h in s.handlers
  {
    if h in s'.handlers then s'.handlers[h] else s.handlers[h]
  }

  lemma QuietDeliver(cfg: Config, s: State, step: Step, s': State)
    requires LeaseInv(s) && Enabled(cfg, s, step) && step.Deliver? && s' == Apply(cfg, s, step)
    ensures QuietShape(s, s')
  {}

  lemma QuietHandler(s: State, s': State, h: nat, h': Handler)
    requires s'.log == s.log && s.clock <= s'.clock && s.next <= s'.next && h in s.handlers
    requires MovesOn(s, s.handlers[h], h')
    requires s'.handlers == s.handlers - {h} || s'.handlers == s.handlers[h := h']
    ensures QuietShape(s, s')
  {}

  // Steps that leave the table alone.
  lemma QuietStep(s: State, s': State)
    requires LeaseInv(s) && QuietShape(s, s')
    ensures LeaseInv(s')
  {
    forall h | h in s'.handlers ensures HandlerOk(s', s'.handlers[h]) && h < s'.next {
      if h in s.handlers { assert HandlerOk(s, s.handlers[h]); }
    }
    forall h, p | Holds(s', h, p) ensures Holds(s, h, p) {}
  }

  // A step of handler `h` on the row of its pair `p`: enough that `h` ends up consistent, that no
  // other holder of `p` is disturbed, and that `h` holds `p` only if nobody else did.
  lemma RowStep(s: State, s': State, h: nat, p: Pair)
    requires LeaseInv(s) && h in s.handlers
    requires s'.clock == s.clock && s'.next == s.next
    requires s'.log - {p} == s.log - {p} && (p in s.log ==> p in s'.log)
    requires s'.handlers - {h} == s.handlers - {h}
    requires h in s'.handlers ==> s'.handlers[h].body == Alert(p) && HandlerOk(s', s'.handlers[h])
    requires forall g :: g != h && Holds(s, g, p) ==> HandlerOk(s', s.handlers[g]) && !Holds(s', h, p)
    ensures LeaseInv(s')
  {
    KeepsOthers(s, s', p);
    forall g | g in s'.handlers && g != h
      ensures g in s.handlers && s'.handlers[g] == s.handlers[g] && HandlerOk(s', s'.handlers[g])
    {
      assert g in s'.handlers - {h} && (s'.handlers - {h})[g] == (s.handlers - {h})[g];
      assert HandlerOk(s, s.handlers[g]);
    }
    forall g, q | g != h && Holds(s', g, q) ensures Holds(s, g, q) {}
  }

  // The two statements that can win the claim.
  lemma InsertStep(cfg: Config, s: State, h: nat, outcome: Outcome)
    requires LeaseInv(s) && Enabled(cfg, s, InsertRow(h, outcome))
    ensures LeaseInv(Apply(cfg, s, InsertRow(h, outcome)))
  {
    var s' := Apply(cfg, s, InsertRow(h, outcome));
    var p := s.handlers[h].body.pair;
    assert HandlerOk(s, s.handlers[h]);
    assert s'.log - {p} == s.log - {p} && s'.handlers - {h} == s.handlers - {h};
    forall g | g != h && Holds(s, g, p) ensures HandlerOk(s', s.handlers[g]) && !Holds(s', h, p) {
      assert HandlerOk(s, s.handlers[g]);
    }
    RowStep(s, s', h, p);
  }

  lemma TakeOverStep(cfg: Config, s: State, h: nat, outcome: Outcome)
    requires LeaseInv(s) && Enabled(cfg, s, TakeOverRow(h, outcome))
    requires !LapsedTakeOver(s, TakeOverRow(h, outcome))
    ensures LeaseInv(Apply(cfg, s, TakeOverRow(h, outcome)))
  {
    var s' := Apply(cfg, s, TakeOverRow(h, outcome));
    var p := s.handlers[h].body.pair;
    assert HandlerOk(s, s.handlers[h]);
    assert s'.log - {p} == s.log - {p} && s'.handlers - {h} == s.handlers - {h};
    forall g | g != h && Holds(s, g, p) ensures HandlerOk(s', s.handlers[g]) && !Holds(s', h, p) {
      assert HandlerOk(s, s.handlers[g]);
      assert outcome.Lands() ==> s.handlers[g].pc.claimedAt >= s.handlers[h].pc.cutoff;
    }
    RowStep(s, s', h, p);
  }

  // The holder gives the lease up.
  lemma SettleStep(cfg: Config, s: State, step: Step, h: nat)
    requires LeaseInv(s) && Enabled(cfg, s, step)
    requires (step.SettleSentRow? || step.ReleaseRow?) && step.h == h
    ensures LeaseInv(Apply(cfg, s, step))
  {
    var s' := Apply(cfg, s, step);
    var p := s.handlers[h].body.pair;
    assert Holds(s, h, p) && HandlerOk(s, s.handlers[h]);
    assert s'.log - {p} == s.log - {p} && s'.handlers - {h} == s.handlers - {h};
    RowStep(s, s', h, p);
  }

  // A FAILED settle comes from a handler that need not hold the lease; it leaves `claimedAt` alone.
  lemma FailStep(cfg: Config, s: State, h: nat, outcome: Outcome)
    requires LeaseInv(s) && Enabled(cfg, s, SettleFailedRow(h, outcome))
    ensures LeaseInv(Apply(cfg, s, SettleFailedRow(h, outcome)))
  {
    var s' := Apply(cfg, s, SettleFailedRow(h, outcome));
    var p := s.handlers[h].body.pair;
    assert s'.log - {p} == s.log - {p} && s'.handlers - {h} == s.handlers - {h};
    forall g | g != h && Holds(s, g, p) ensures HandlerOk(s', s.handlers[g]) {
      assert HandlerOk(s, s.handlers[g]);
    }
    RowStep(s, s', h, p);
  }

  lemma {:induction false} LeaseAlways(cfg: Config, states: seq<State>, steps: seq<Step>, i: nat)
    requires Behaviour(cfg, states, steps) && i < |states|
    requires forall k :: 0 <= k < |steps| ==> !WipesClaim(states[k], steps[k])
    requires forall k :: 0 <= k < |states| ==> Timely(states[k])
    ensures LeaseInv(states[i])
  {
    if i > 0 {
      LeaseAlways(cfg, states, steps, i - 1);
      assert Linked(cfg, states[i - 1], steps[i - 1], states[i]);
      TimelyNeverLapses(states[i - 1], steps[i - 1]);
      LeaseStep(cfg, states[i - 1], steps[i - 1]);
    }
  }

  /** Lease mutual exclusion: at every point of every timely run in which no row is deleted under a
      running claim (other rows may be deleted at will), no two handlers hold the same (event,
      channel), a holder finds its own claim in the table, and a handler that reads the row back after
      losing the claim finds it there. */
  lemma MutualExclusion(cfg: Config, states: seq<State>, steps: seq<Step>, i: nat)
    requires Behaviour(cfg, states, steps) && i < |states|
    requires forall k :: 0 <= k < |steps| ==> !WipesClaim(states[k], steps[k])
    requires forall k :: 0 <= k < |states| ==> Timely(states[k])
    ensures forall g, h, p :: Holds(states[i], g, p) && Holds(states[i], h, p) ==> g == h
    ensures forall h, p :: Holds(states[i], h, p) ==>
                             && p in states[i].log
                             && states[i].log[p].claimedAt == Some(states[i].handlers[h].pc.claimedAt)
    ensures forall h :: AlertAt(states[i], h) && states[i].handlers[h].pc.ReadBack? ==>
                          states[i].handlers[h].body.pair in states[i].log
  {
    LeaseAlways(cfg, states, steps, i);
    forall h | h in states[i].handlers ensures HandlerOk(states[i], states[i].handlers[h]) {}
  }

  /** Exactly when a step keeps the lease: whenever it is neither a take-over of a lapsed claim whose
      holder is still running (which, once answered, leaves two holders) nor the deletion of a row a
      running handler counts on. */
  lemma LeaseKeptIff(cfg: Config, s: State, step: Step)
    requires LeaseInv(s) && Enabled(cfg, s, step)
    ensures LeaseInv(Apply(cfg, s, step)) <==> !LapsedTakeOver(s, step) && !WipesClaim(s, step)
    ensures LapsedTakeOver(s, step) && step.outcome.Answered? ==> !Exclusive(Apply(cfg, s, step))
  {
    if LapsedTakeOver(s, step) {
      LapseBreaks(cfg, s, step);
    } else if WipesClaim(s, step) {
      WipeBreaks(s, step, Apply(cfg, s, step));
    } else {
      LeaseStep(cfg, s, step);
    }
  }

  lemma LapseBreaks(cfg: Config, s: State, step: Step)
    requires LeaseInv(s) && Enabled(cfg, s, step) && LapsedTakeOver(s, step)
    ensures !LeaseInv(Apply(cfg, s, step))
    ensures step.outcome.Answered? ==> !Exclusive(Apply(cfg, s, step))
  {
    var s' := Apply(cfg, s, step);
    var p := s.handlers[step.h].body.pair;
    var g :| Holds(s, g, p) && s.handlers[g].pc.claimedAt < s.handlers[step.h].pc.cutoff;
    assert HandlerOk(s, s.handlers[g]) && HandlerOk(s, s.handlers[step.h]);
    assert Holds(s', g, p);
    if step.outcome.Answered? {
      assert Holds(s', step.h, p);
    } else {
      assert !HandlerOk(s', s'.handlers[g]);
    }
  }

  // ---- Send accounting ----

  function One(b: bool): nat { if b then 1 else 0 }

  ghost predicate TallyInv(s: State, p: Pair) {
    var t := TallyOf(s, p);
    && t.landed == t.overwritten + One(IsSent(s.log, p))
    && t.sends == t.landed + t.lost + One(exists h :: Settling(s, h, p))
  }

  ghost predicate SameAccount(s: State, s': State, p: Pair) {
    && TallyOf(s', p) == TallyOf(s, p)
    && IsSent(s'.log, p) == IsSent(s.log, p)
    && forall h :: Settling(s', h, p) <==> Settling(s, h, p)
  }

  lemma SameAccountKeeps(s: State, s': State, p: Pair)
    requires TallyInv(s, p) && SameAccount(s, s', p)
    ensures TallyInv(s', p)
  {
    if h :| Settling(s, h, p) { assert Settling(s', h, p); }
  }

  // Only the pair's holder and a FAILED settle reach the account.
  predicate Accounts(s: State, step: Step, p: Pair) {
    || ((step.SendOk? || step.SettleSentRow? || step.Crash?) && Holds(s, step.h, p))
    || (step.SettleFailedRow? && AlertAt(s, step.h) && s.handlers[step.h].body.pair == p)
  }

  lemma TallyStep(cfg: Config, s: State, step: Step, p: Pair)
    requires LeaseInv(s) && TallyInv(s, p) && Enabled(cfg, s, step) && !step.Wipe?
    ensures TallyInv(Apply(cfg, s, step), p)
  {
    var s' := Apply(cfg, s, step);
    if !Accounts(s, step, p) {
      Unaccounted(cfg, s, step, s', p);
      SameAccountKeeps(s, s', p);
    } else if step.SettleFailedRow? {
      FailedAccount(cfg, s, step.h, step.outcome, p);
    } else {
      assert HandlerOk(s, s.handlers[step.h]);
      if s.handlers[step.h].pc.SettleSent? {
        SettleEnds(cfg, s, step, p);
      } else if step.SendOk? {
        SettleBegins(s, step.h, p);
      } else {
        SameAccountKeeps(s, s', p);
      }
    }
  }

  lemma Unaccounted(cfg: Config, s: State, step: Step, s': State, p: Pair)
    requires LeaseInv(s) && Enabled(cfg, s, step) && !step.Wipe? && !Accounts(s, step, p)
    requires s' == Apply(cfg, s, step)
    ensures SameAccount(s, s', p)
  {
    match step
    case Deliver(_) => UnaccountedDeliver(cfg, s, step, s', p);
    case InsertRow(h, outcome) => UnaccountedInsert(cfg, s, h, outcome, s', p);
    case TakeOverRow(h, outcome) => UnaccountedTakeOver(cfg, s, h, outcome, s', p);
    case Begin(_, _) => UnaccountedRead(cfg, s, step, s', p);
    case ReadRow(_, _) => UnaccountedRead(cfg, s, step, s', p);
    case SendOk(_) => UnaccountedSend(cfg, s, step, s', p);
    case SendFail(_, _) => UnaccountedSend(cfg, s, step, s', p);
    case SettleSentRow(h, outcome) => UnaccountedSent(cfg, s, h, outcome, s', p);
    case ReleaseRow(h, outcome) => UnaccountedRelease(cfg, s, h, outcome, s', p);
    case SettleFailedRow(h, outcome) => UnaccountedFailed(cfg, s, h, outcome, s', p);
    case PublishRetry(_, _) => UnaccountedPublish(cfg, s, step, s', p);
    case PublishDead(_, _) => UnaccountedPublish(cfg, s, step, s', p);
    case AckCopy(_) => UnaccountedExit(cfg, s, step, s', p);
    case Crash(_) => UnaccountedExit(cfg, s, step, s', p);
    case _ =>
  }

  lemma UnaccountedDeliver(cfg: Config, s: State, step: Step, s': State, p: Pair)
    requires LeaseInv(s) && Enabled(cfg, s, step) && step.Deliver? && s' == Apply(cfg, s, step)
    ensures SameAccount(s, s', p)
  {
    OtherHandlers(s, s', s.next, p);
  }

  lemma UnaccountedInsert(cfg: Config, s: State, h: nat, outcome: Outcome, s': State, p: Pair)
    requires Enabled(cfg, s, InsertRow(h, outcome)) && s' == InsertedRow(cfg, s, h, outcome)
    ensures SameAccount(s, s', p)
  {
    assert s'.handlers - {h} == s.handlers - {h};
    OtherHandlers(s, s', h, p);
  }

  lemma UnaccountedTakeOver(cfg: Config, s: State, h: nat, outcome: Outcome, s': State, p: Pair)
    requires Enabled(cfg, s, TakeOverRow(h, outcome)) && s' == TakenOverRow(cfg, s, h, outcome)
    ensures SameAccount(s, s', p)
  {
    assert s'.handlers - {h} == s.handlers - {h};
    OtherHandlers(s, s', h, p);
  }

  lemma UnaccountedRead(cfg: Config, s: State, step: Step, s': State, p: Pair)
    requires Enabled(cfg, s, step) && s' == Apply(cfg, s, step) && (step.Begin? || step.ReadRow?)
    ensures SameAccount(s, s', p)
  {
    assert s'.handlers - {step.h} == s.handlers - {step.h};
    OtherHandlers(s, s', step.h, p);
  }

  lemma UnaccountedSend(cfg: Config, s: State, step: Step, s': State, p: Pair)
    requires Enabled(cfg, s, step) && !Accounts(s, step, p) && s' == Apply(cfg, s, step)
    requires step.SendOk? || step.SendFail?
    ensures SameAccount(s, s', p)
  {
    assert s'.handlers - {step.h} == s.handlers - {step.h};
    OtherHandlers(s, s', step.h, p);
  }

  lemma UnaccountedSent(cfg: Config, s: State, h: nat, outcome: Outcome, s': State, p: Pair)
    requires Enabled(cfg, s, SettleSentRow(h, outcome)) && s' == SettledSent(cfg, s, h, outcome)
    requires s.handlers[h].body.pair != p
    ensures SameAccount(s, s', p)
  {
    assert s'.handlers - {h} == s.handlers - {h};
    OtherHandlers(s, s', h, p);
  }

  lemma UnaccountedRelease(cfg: Config, s: State, h: nat, outcome: Outcome, s': State, p: Pair)
    requires Enabled(cfg, s, ReleaseRow(h, outcome)) && s' == ReleasedRow(cfg, s, h, outcome)
    ensures SameAccount(s, s', p)
  {
    assert s'.handlers - {h} == s.handlers - {h};
    OtherHandlers(s, s', h, p);
  }

  lemma UnaccountedFailed(cfg: Config, s: State, h: nat, outcome: Outcome, s': State, p: Pair)
    requires Enabled(cfg, s, SettleFailedRow(h, outcome)) && s' == SettledFailed(cfg, s, h, outcome)
    requires s.handlers[h].body.pair != p
    ensures SameAccount(s, s', p)
  {
    assert s'.handlers - {h} == s.handlers - {h};
    OtherHandlers(s, s', h, p);
  }

  lemma UnaccountedPublish(cfg: Config, s: State, step: Step, s': State, p: Pair)
    requires Enabled(cfg, s, step) && s' == Apply(cfg, s, step) && (step.PublishRetry? || step.PublishDead?)
    ensures SameAccount(s, s', p)
  {
    assert s'.handlers - {step.h} == s.handlers - {step.h};
    OtherHandlers(s, s', step.h, p);
  }

  lemma UnaccountedExit(cfg: Config, s: State, step: Step, s': State, p: Pair)
    requires Enabled(cfg, s, step) && !Accounts(s, step, p) && s' == Apply(cfg, s, step)
    requires step.AckCopy? || step.Crash?
    ensures SameAccount(s, s', p)
  {
    assert s'.handlers - {step.h} == s.handlers - {step.h};
    OtherHandlers(s, s', step.h, p);
  }

  lemma OtherHandlers(s: State, s': State, h: nat, p: Pair)
    requires !Settling(s, h, p) && !Settling(s', h, p) && s'.handlers - {h} == s.handlers - {h}
    ensures forall g :: Settling(s', g, p) <==> Settling(s, g, p)
  {
    forall g ensures Settling(s', g, p) <==> Settling(s, g, p) {
      if g != h {
        assert g in s.handlers <==> g in s.handlers - {h};
        assert g in s'.handlers <==> g in s'.handlers - {h};
        assert g in s.handlers ==> s.handlers[g] == (s.handlers - {h})[g] == (s'.handlers - {h})[g];
      }
    }
  }

  lemma FailedAccount(cfg: Config, s: State, h: nat, outcome: Outcome, p: Pair)
    requires TallyInv(s, p) && Enabled(cfg, s, SettleFailedRow(h, outcome)) && s.handlers[h].body.pair == p
    ensures TallyInv(Apply(cfg, s, SettleFailedRow(h, outcome)), p)
  {
    var s' := Apply(cfg, s, SettleFailedRow(h, outcome));
    assert forall g :: Settling(s', g, p) <==> Settling(s, g, p);
    if g :| Settling(s, g, p) { assert Settling(s', g, p); }
  }

  // The pair's holder starts its settle; nobody else was settling.
  lemma SettleBegins(s: State, h: nat, p: Pair)
    requires LeaseInv(s) && TallyInv(s, p) && Holds(s, h, p) && s.handlers[h].pc.Sending?
    ensures TallyInv(SentOk(s, h), p)
  {
    var s' := SentOk(s, h);
    assert Settling(s', h, p);
    assert forall g :: !Settling(s, g, p);
  }

  // The pair's holder ends its settle; being the only one, nobody is settling afterwards.
  lemma SettleEnds(cfg: Config, s: State, step: Step, p: Pair)
    requires LeaseInv(s) && TallyInv(s, p) && Enabled(cfg, s, step)
    requires (step.SettleSentRow? || step.Crash?) && Settling(s, step.h, p)
    ensures TallyInv(Apply(cfg, s, step), p)
  {
    var s' := Apply(cfg, s, step);
    var h := step.h;
    assert HandlerOk(s, s.handlers[h]);
    assert !Settling(s', h, p);
    forall g | Settling(s', g, p) ensures g == h { assert Settling(s, g, p) && Holds(s, g, p); }
  }

  lemma {:induction false} TallyAlways(cfg: Config, states: seq<State>, steps: seq<Step>, i: nat, p: Pair)
    requires Behaviour(cfg, states, steps) && NoWipes(steps) && i < |states|
    requires forall k :: 0 <= k < |states| ==> Timely(states[k])
    ensures TallyInv(states[i], p)
  {
    if i > 0 {
      TallyAlways(cfg, states, steps, i - 1, p);
      LeaseAlways(cfg, states, steps, i - 1);
      assert Linked(cfg, states[i - 1], steps[i - 1], states[i]);
      TallyStep(cfg, states[i - 1], steps[i - 1], p);
    }
  }

  /** Send accounting: at every point the accepted sends of a pair are exactly the FAILED settles
      that overwrote SENT, plus the sends whose SENT settle was lost, plus one if the row reads SENT
      or a settle is about to write it. So a run with neither kind of accident sends at most once. */
  lemma SendAccounting(cfg: Config, states: seq<State>, steps: seq<Step>, i: nat, p: Pair)
    requires Behaviour(cfg, states, steps) && NoWipes(steps) && i < |states|
    requires forall k :: 0 <= k < |states| ==> Timely(states[k])
    ensures var t := TallyOf(states[i], p);
            && t.sends == t.overwritten + t.lost
                          + One(IsSent(states[i].log, p) || exists h :: Settling(states[i], h, p))
            && t.sends <= 1 + t.overwritten + t.lost
            && (t.overwritten == 0 && t.lost == 0 ==> t.sends <= 1)
  {
    TallyAlways(cfg, states, steps, i, p);
    LeaseAlways(cfg, states, steps, i);
    forall h | Settling(states[i], h, p) ensures !IsSent(states[i].log, p) {
      assert HandlerOk(states[i], states[i].handlers[h]);
    }
  }

  // ---- What can undo SENT ----

  /** A FAILED settle lands on the pair, or its row is deleted. */
  predicate Undoes(s: State, step: Step, p: Pair) {
    || (step.Wipe? && step.p == p)
    || (step.SettleFailedRow? && step.outcome.Lands() && AlertAt(s, step.h) && s.handlers[step.h].body.pair == p)
  }

  lemma SentKeptByTable(cfg: Config, s: State, step: Step, s': State, p: Pair)
    requires Enabled(cfg, s, step) && s' == Apply(cfg, s, step) && IsSent(s.log, p) && TouchesTable(step)
    ensures IsSent(s'.log, p) <==> !Undoes(s, step, p)
  {}

  /** Exactly what turns a SENT row back: neither a claim, a take-over, a release nor another send's
      settle does; a FAILED settle and a deletion do. */
  lemma SentKeptIff(cfg: Config, s: State, step: Step, p: Pair)
    requires Enabled(cfg, s, step) && IsSent(s.log, p)
    ensures IsSent(Apply(cfg, s, step).log, p) <==> !Undoes(s, step, p)
  {
    if TouchesTable(step) {
      SentKeptByTable(cfg, s, step, Apply(cfg, s, step), p);
    } else {
      assert Apply(cfg, s, step).log == s.log;
    }
  }
}
