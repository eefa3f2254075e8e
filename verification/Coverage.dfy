/** No alert leaves the broker unsent: once an alert is in a queue it stays covered by a copy, by an
    accepted send, or by a drop from a full dead queue. This holds with crashes between any two steps,
    requeues, ambiguous publishes and deletions of history rows. */
module Coverage {
  import opened Domain
  import opened DeliveryLog
  import opened Delivery

  predicate Backed(s: State, p: Pair) {
    TallyOf(s, p).sends >= 1 || p in s.history.dropped
  }

  ghost predicate InBroker(s: State, p: Pair) {
    exists c :: c in s.copies && s.copies[c].body == Alert(p)
  }

  /** Held by the broker (main, retry, unacked or dead), sent, or shed by a full dead queue. */
  ghost predicate Covered(s: State, p: Pair) {
    InBroker(s, p) || Backed(s, p)
  }

  // A younger copy of the same message. Copy ids grow, so "younger" cannot go round in circles.
  ghost predicate CopyAbove(s: State, body: Body, c: nat) {
    exists k :: k in s.copies && k > c && s.copies[k].body == body
  }

  // What a handler about to give its copy up has behind it.
  ghost predicate PcSafe(s: State, h: Handler) {
    && (h.pc.SettleSent? || h.pc == Ack(Delivered) ==> h.body.Alert? && TallyOf(s, h.body.pair).sends >= 1)
    && (h.pc == Ack(Moved) && h.body.Alert? ==> CopyAbove(s, h.body, h.copy) || Backed(s, h.body.pair))
  }

  ghost predicate HandlerSafe(cfg: Config, s: State, h: Handler) {
    && h.copy < s.next && h.body.Chan() in cfg.queues
    && (h.copy in s.copies ==> s.copies[h.copy].body == h.body)
    && PcSafe(s, h)
  }

  ghost predicate CoverInv(cfg: Config, s: State) {
    && (forall c :: c in s.copies ==> c < s.next && s.copies[c].body.Chan() in cfg.queues)
    && (forall h :: h in s.handlers ==> h < s.next && HandlerSafe(cfg, s, s.handlers[h]))
    && (forall p :: IsSent(s.log, p) ==> TallyOf(s, p).sends >= 1)
  }

  // Steps that remove no copy.
  ghost predicate CopiesGrow(cfg: Config, s: State, s': State) {
    && s.next <= s'.next
    && (forall c :: c in s.copies ==> c in s'.copies && s'.copies[c].body == s.copies[c].body)
    && (forall c :: c in s'.copies && c !in s.copies ==>
                      c == s.next < s'.next && s'.copies[c].body.Chan() in cfg.queues)
  }

  ghost predicate HistoryGrows(s: State, s': State) {
    && s.history.dropped <= s'.history.dropped
    && (forall p :: TallyOf(s, p).sends <= TallyOf(s', p).sends)
    && (forall p :: IsSent(s'.log, p) ==> IsSent(s.log, p) || TallyOf(s', p).sends >= 1)
  }

  ghost predicate HandlersFollow(s: State, s': State) {
    forall h :: h in s'.handlers ==>
      if h in s.handlers then
        && s'.handlers[h].copy == s.handlers[h].copy && s'.handlers[h].body == s.handlers[h].body
        && (s'.handlers[h].pc == s.handlers[h].pc || PcSafe(s', s'.handlers[h]))
      else
        && h < s'.next && s'.handlers[h].copy in s.copies && s'.handlers[h].pc == Start
        && s.copies[s'.handlers[h].copy].body == s'.handlers[h].body
  }

  ghost predicate Grows(cfg: Config, s: State, s': State) {
    CopiesGrow(cfg, s, s') && HistoryGrows(s, s') && HandlersFollow(s, s')
  }

  lemma KeepsCover(cfg: Config, s: State, s': State)
    requires CoverInv(cfg, s)
    requires Grows(cfg, s, s')
    ensures CoverInv(cfg, s')
    ensures forall p :: Covered(s, p) ==> Covered(s', p)
  {
    forall h | h in s'.handlers ensures HandlerSafe(cfg, s', s'.handlers[h]) {
      if h in s.handlers {
        assert HandlerSafe(cfg, s, s.handlers[h]);
        SafePcStays(s, s', s.handlers[h]);
      }
    }
    forall p | Covered(s, p) ensures Covered(s', p) {
      if InBroker(s, p) {
        var c :| c in s.copies && s.copies[c].body == Alert(p);
        assert c in s'.copies && s'.copies[c].body == Alert(p);
      }
    }
  }

  lemma SafePcStays(s: State, s': State, h: Handler)
    requires PcSafe(s, h) && HistoryGrows(s, s')
    requires forall c :: c in s.copies ==> c in s'.copies && s'.copies[c].body == s.copies[c].body
    ensures PcSafe(s', h)
  {
    if h.pc == Ack(Moved) && h.body.Alert? && CopyAbove(s, h.body, h.copy) {
      var k :| k in s.copies && k > h.copy && s.copies[k].body == h.body;
      assert k in s'.copies && s'.copies[k].body == h.body;
    }
  }

  // A handler moves to a point that claims nothing, or ends; the broker is left alone.
  lemma PlainStep(cfg: Config, s: State, s': State, h: nat, pc: Pc)
    requires CoverInv(cfg, s) && h in s.handlers && HistoryGrows(s, s')
    requires s'.copies == s.copies && s'.next == s.next
    requires s'.handlers == s.handlers - {h} || s'.handlers == s.handlers[h := s.handlers[h].(pc := pc)]
    requires !pc.SettleSent? && !pc.Ack?
    ensures Grows(cfg, s, s')
  {}

  function NextPc(s': State, h: nat): Pc {
    if h in s'.handlers then s'.handlers[h].pc else Start
  }

  // Steps that remove no copy, a few kinds at a time.

  lemma LocalSteps(cfg: Config, s: State, step: Step, s': State)
    requires CoverInv(cfg, s) && Enabled(cfg, s, step) && s' == Apply(cfg, s, step)
    requires step.Begin? || step.SendFail? || step.Crash?
    ensures Grows(cfg, s, s')
  {
    PlainStep(cfg, s, s', step.h, NextPc(s', step.h));
  }

  lemma ReleaseStep(cfg: Config, s: State, h: nat, outcome: Outcome, s': State)
    requires CoverInv(cfg, s) && Enabled(cfg, s, ReleaseRow(h, outcome)) && s' == ReleasedRow(cfg, s, h, outcome)
    ensures Grows(cfg, s, s')
  {
    PlainStep(cfg, s, s', h, NextPc(s', h));
  }

  lemma InsertStep(cfg: Config, s: State, h: nat, outcome: Outcome, s': State)
    requires CoverInv(cfg, s) && Enabled(cfg, s, InsertRow(h, outcome)) && s' == InsertedRow(cfg, s, h, outcome)
    ensures Grows(cfg, s, s')
  {
    PlainStep(cfg, s, s', h, NextPc(s', h));
  }

  lemma TakeOverStep(cfg: Config, s: State, h: nat, outcome: Outcome, s': State)
    requires CoverInv(cfg, s) && Enabled(cfg, s, TakeOverRow(h, outcome)) && s' == TakenOverRow(cfg, s, h, outcome)
    ensures Grows(cfg, s, s')
  {
    PlainStep(cfg, s, s', h, NextPc(s', h));
  }

  lemma SettleFailedStep(cfg: Config, s: State, step: Step, s': State)
    requires CoverInv(cfg, s) && Enabled(cfg, s, step) && s' == Apply(cfg, s, step)
    requires step.SettleFailedRow?
    ensures Grows(cfg, s, s')
  {
    PlainStep(cfg, s, s', step.h, NextPc(s', step.h));
  }

  lemma ReadStep(cfg: Config, s: State, step: Step, s': State)
    requires CoverInv(cfg, s) && Enabled(cfg, s, step) && s' == Apply(cfg, s, step)
    requires step.ReadRow?
    ensures Grows(cfg, s, s')
  {
    var pc := NextPc(s', step.h);
    if pc.Ack? {
      assert IsSent(s.log, s.handlers[step.h].body.pair) && s' == Goto(s, step.h, Ack(Delivered));
    } else {
      PlainStep(cfg, s, s', step.h, pc);
    }
  }

  lemma SendOkStep(cfg: Config, s: State, step: Step, s': State)
    requires CoverInv(cfg, s) && Enabled(cfg, s, step) && s' == Apply(cfg, s, step)
    requires step.SendOk?
    ensures Grows(cfg, s, s')
  {}

  lemma SettleSentStep(cfg: Config, s: State, h: nat, outcome: Outcome, s': State)
    requires CoverInv(cfg, s) && Enabled(cfg, s, SettleSentRow(h, outcome)) && s' == SettledSent(cfg, s, h, outcome)
    ensures Grows(cfg, s, s')
  {
    assert HandlerSafe(cfg, s, s.handlers[h]);
  }

  lemma BrokerSteps(cfg: Config, s: State, step: Step, s': State)
    requires CoverInv(cfg, s) && Enabled(cfg, s, step) && s' == Apply(cfg, s, step)
    requires step.Tick? || step.Wipe? || step.Inject?
    ensures Grows(cfg, s, s')
  {}

  lemma CopySteps(cfg: Config, s: State, step: Step, s': State)
    requires CoverInv(cfg, s) && Enabled(cfg, s, step) && s' == Apply(cfg, s, step)
    requires step.Deliver? || step.Requeue? || step.ExpireRetry?
    ensures Grows(cfg, s, s')
  {}

  // The publisher moves on to its ack, or ends; the others stay.
  ghost predicate PublisherMoves(s: State, s': State, h: nat) {
    && h in s.handlers
    && (s'.handlers == s.handlers - {h} || s'.handlers == s.handlers[h := s.handlers[h].(pc := Ack(Moved))])
  }

  lemma PublishStep(cfg: Config, s: State, h: nat, attempts: nat, place: Place, outcome: Outcome, s': State)
    requires CoverInv(cfg, s) && h in s.handlers && s' == PublishedOn(cfg, s, h, attempts, place, outcome)
    ensures Grows(cfg, s, s')
  {
    assert HandlerSafe(cfg, s, s.handlers[h]);
    assert PublisherMoves(s, s', h);
    assert CopiesGrow(cfg, s, s') && HistoryGrows(s, s');
    if outcome.Answered? {
      assert s.next in s'.copies && s'.copies[s.next].body == s.handlers[h].body;
      assert CopyAbove(s', s.handlers[h].body, s.handlers[h].copy);
    }
    PublishFollows(s, s', h);
  }

  lemma PublishFollows(s: State, s': State, h: nat)
    requires PublisherMoves(s, s', h)
    requires h in s'.handlers ==> CopyAbove(s', s.handlers[h].body, s.handlers[h].copy)
    ensures HandlersFollow(s, s')
  {}

  lemma GrowStep(cfg: Config, s: State, step: Step, s': State)
    requires CoverInv(cfg, s) && Enabled(cfg, s, step) && s' == Apply(cfg, s, step)
    requires !step.AckCopy? && !step.Overflow?
    ensures Grows(cfg, s, s')
  {
    match step
    case Begin(_, _) => LocalSteps(cfg, s, step, s');
    case SendFail(_, _) => LocalSteps(cfg, s, step, s');
    case ReleaseRow(h, outcome) => ReleaseStep(cfg, s, h, outcome, s');
    case Crash(_) => LocalSteps(cfg, s, step, s');
    case InsertRow(h, outcome) => InsertStep(cfg, s, h, outcome, s');
    case TakeOverRow(h, outcome) => TakeOverStep(cfg, s, h, outcome, s');
    case SettleFailedRow(_, _) => SettleFailedStep(cfg, s, step, s');
    case ReadRow(_, _) => ReadStep(cfg, s, step, s');
    case SendOk(_) => SendOkStep(cfg, s, step, s');
    case SettleSentRow(h, outcome) => SettleSentStep(cfg, s, h, outcome, s');
    case Tick(_) => BrokerSteps(cfg, s, step, s');
    case Wipe(_) => BrokerSteps(cfg, s, step, s');
    case Inject(_) => BrokerSteps(cfg, s, step, s');
    case Deliver(_) => CopySteps(cfg, s, step, s');
    case Requeue(_) => CopySteps(cfg, s, step, s');
    case ExpireRetry(_) => CopySteps(cfg, s, step, s');
    case PublishRetry(h, outcome) =>
      PublishStep(cfg, s, h, s.handlers[h].attempts + 1, Retry(s.handlers[h].attempts + 1), outcome, s');
    case PublishDead(h, outcome) => PublishStep(cfg, s, h, s.handlers[h].attempts, Dead, outcome, s');
  }

  /** Removing a copy is safe exactly because of what its handler has behind it. */
  lemma AckStep(cfg: Config, s: State, h: nat)
    requires CoverInv(cfg, s) && Enabled(cfg, s, AckCopy(h))
    ensures CoverInv(cfg, Apply(cfg, s, AckCopy(h)))
    ensures forall p :: Covered(s, p) ==> Covered(Apply(cfg, s, AckCopy(h)), p)
  {
    var s' := Apply(cfg, s, AckCopy(h));
    var gone := s.handlers[h];
    assert HandlerSafe(cfg, s, gone);
    if s'.copies == s.copies {
      KeepsCover(cfg, s, s');
    } else {
      forall g | g in s'.handlers ensures HandlerSafe(cfg, s', s'.handlers[g]) {
        assert HandlerSafe(cfg, s, s.handlers[g]);
        AckKeepsPc(cfg, s, s', gone, s.handlers[g]);
      }
      forall p | Covered(s, p) ensures Covered(s', p) {
        if InBroker(s, p) {
          var c :| c in s.copies && s.copies[c].body == Alert(p);
          if c != gone.copy {
            assert c in s'.copies;
          } else if CopyAbove(s, gone.body, gone.copy) {
            var k :| k in s.copies && k > gone.copy && s.copies[k].body == gone.body;
            assert k in s'.copies;
          }
        }
      }
    }
  }

  lemma AckKeepsPc(cfg: Config, s: State, s': State, gone: Handler, g: Handler)
    requires HandlerSafe(cfg, s, gone) && gone.pc.Ack? && PcSafe(s, g)
    requires gone.copy in s.copies
    requires s'.copies == s.copies - {gone.copy} && s'.history.tally == s.history.tally
    requires s'.history.dropped == s.history.dropped
    ensures PcSafe(s', g)
  {
    if g.pc == Ack(Moved) && g.body.Alert? && CopyAbove(s, g.body, g.copy) {
      var k :| k in s.copies && k > g.copy && s.copies[k].body == g.body;
      if k != gone.copy {
        assert k in s'.copies;
      } else if gone.pc.reason == Moved && CopyAbove(s, gone.body, gone.copy) {
        assert gone.pc == Ack(Moved);
        var k' :| k' in s.copies && k' > gone.copy && s.copies[k'].body == gone.body;
        assert k' in s'.copies && s'.copies[k'].body == g.body;
      } else {
        assert gone.pc == Ack(gone.pc.reason) && Backed(s, g.body.pair);
      }
    }
  }

  lemma OverflowStep(cfg: Config, s: State, c: nat)
    requires CoverInv(cfg, s) && Enabled(cfg, s, Overflow(c))
    ensures CoverInv(cfg, Apply(cfg, s, Overflow(c)))
    ensures forall p :: Covered(s, p) ==> Covered(Apply(cfg, s, Overflow(c)), p)
  {
    var s' := Apply(cfg, s, Overflow(c));
    forall h | h in s'.handlers ensures HandlerSafe(cfg, s', s'.handlers[h]) {
      var g := s.handlers[h];
      assert HandlerSafe(cfg, s, g);
      if g.pc == Ack(Moved) && g.body.Alert? && CopyAbove(s, g.body, g.copy) {
        var k :| k in s.copies && k > g.copy && s.copies[k].body == g.body;
        assert k != c ==> k in s'.copies;
      }
    }
    forall p | Covered(s, p) ensures Covered(s', p) {
      if InBroker(s, p) {
        var k :| k in s.copies && s.copies[k].body == Alert(p);
        assert k != c ==> k in s'.copies;
      }
    }
  }

  // A copy's message, header and origin never change; only the handler it is delivered to, or a full
  // dead queue, removes it.
  ghost predicate CopyKept(s: State, step: Step, s': State, c: nat)
    requires c in s.copies
  {
    if c in s'.copies then
      s'.copies[c].(place := s.copies[c].place) == s.copies[c]
    else
      || (step.AckCopy? && s.copies[c].place == Unacked(step.h))
      || step == Overflow(c)
  }

  lemma CopyLifeBroker(cfg: Config, s: State, step: Step, s': State, c: nat)
    requires CoverInv(cfg, s) && Linked(cfg, s, step, s') && c in s.copies
    requires || step.Tick? || step.Inject? || step.Deliver? || step.Requeue? || step.ExpireRetry? || step.Overflow?
             || step.Wipe? || step.AckCopy? || step.Crash?
    ensures CopyKept(s, step, s', c)
  {}

  lemma CopyLifePublish(
      cfg: Config, s: State, h: nat, attempts: nat, place: Place, outcome: Outcome, s': State, c: nat)
    requires CoverInv(cfg, s) && h in s.handlers && c in s.copies
    requires s' == PublishedOn(cfg, s, h, attempts, place, outcome)
    ensures c in s'.copies && s'.copies[c] == s.copies[c]
  {}

  /** The life of a copy: its message, its attempt header and where it came from never change, on
      requeues and expiries too; and it leaves the broker only acknowledged by the handler it is
      delivered to, or shed by a full dead queue. */
  lemma CopyLife(cfg: Config, s: State, step: Step, s': State, c: nat)
    requires CoverInv(cfg, s) && Linked(cfg, s, step, s') && c in s.copies
    ensures c in s'.copies ==> s'.copies[c].(place := s.copies[c].place) == s.copies[c]
    ensures c !in s'.copies ==> (step.AckCopy? && s.copies[c].place == Unacked(step.h)) || step == Overflow(c)
  {
    if step.PublishRetry? {
      var m := s.handlers[step.h];
      CopyLifePublish(cfg, s, step.h, m.attempts + 1, Retry(m.attempts + 1), step.outcome, s', c);
    } else if step.PublishDead? {
      CopyLifePublish(cfg, s, step.h, s.handlers[step.h].attempts, Dead, step.outcome, s', c);
    } else if step.Tick? || step.Inject? || step.Deliver? || step.Requeue? || step.ExpireRetry? || step.Overflow?
              || step.Wipe? || step.AckCopy? || step.Crash? {
      CopyLifeBroker(cfg, s, step, s', c);
    } else {
      assert s'.copies == s.copies;
    }
  }

  lemma OneDeadLess(s: State, s': State, c: nat, channel: Channel)
    requires c in DeadOf(s, channel) && s'.copies == s.copies - {c}
    ensures DeadOf(s', channel) == DeadOf(s, channel) - {c}
    ensures |DeadOf(s', channel)| == |DeadOf(s, channel)| - 1
  {
    forall d ensures d in DeadOf(s', channel) <==> d in DeadOf(s, channel) - {c} {}
  }

  /** A full dead queue sheds the oldest of what it holds and never goes below its ceiling. */
  lemma OverflowShedsTheOldest(cfg: Config, s: State, c: nat, s': State)
    requires Linked(cfg, s, Overflow(c), s')
    ensures c in s.copies && s'.copies == s.copies - {c}
    ensures |DeadOf(s', s.copies[c].body.Chan())| >= cfg.deadMax
    ensures forall d :: d in DeadOf(s', s.copies[c].body.Chan()) ==> c < d
  {
    OneDeadLess(s, s', c, s.copies[c].body.Chan());
  }

  /** Every step keeps the invariant, and an alert once covered stays covered. */
  lemma CoverStep(cfg: Config, s: State, step: Step)
    requires CoverInv(cfg, s) && Enabled(cfg, s, step)
    ensures CoverInv(cfg, Apply(cfg, s, step))
    ensures forall p :: Covered(s, p) ==> Covered(Apply(cfg, s, step), p)
  {
    if step.AckCopy? {
      AckStep(cfg, s, step.h);
    } else if step.Overflow? {
      OverflowStep(cfg, s, step.c);
    } else {
      var s' := Apply(cfg, s, step);
      GrowStep(cfg, s, step, s');
      KeepsCover(cfg, s, s');
    }
  }

  /** An alert accepted by the exchange of a declared queue is covered from then on. */
  lemma InjectCovers(cfg: Config, s: State, p: Pair)
    requires CoverInv(cfg, s) && p.channel in cfg.queues
    ensures Covered(Apply(cfg, s, Inject(Alert(p))), p)
  {
    var s' := Apply(cfg, s, Inject(Alert(p)));
    assert s.next in s'.copies && s'.copies[s.next].body == Alert(p);
  }
}
