/** The retry ladder. In every run the attempt header stays on the ladder and every republish names a
    declared stage. In runs without crashes, requeues and failed publishes each injected message is
    one token that is in exactly one place until it is delivered or shed, and it is dispatched at most
    once per rung. */
module Ladder {
  import opened Domain
  import opened DeliveryLog
  import opened Delivery
  import Coverage

  // ---- Headers, in every run ----

  predicate CopyOnLadder(cfg: Config, copy: Copy) {
    copy.attempts <= cfg.stages && (copy.place.Retry? ==> 1 <= copy.place.stage == copy.attempts)
  }

  predicate HandlerOnLadder(cfg: Config, h: Handler) {
    h.attempts <= cfg.stages && (h.pc.Republish? ==> h.body.Alert? && h.attempts + 1 <= cfg.stages)
  }

  ghost predicate HeadersInv(cfg: Config, s: State) {
    && (forall c :: c in s.copies ==> CopyOnLadder(cfg, s.copies[c]))
    && (forall h :: h in s.handlers ==> HandlerOnLadder(cfg, s.handlers[h]))
  }

  // The handler a step belongs to ends or moves, everything else about handlers stays.
  lemma HeadersHandler(cfg: Config, s: State, s': State, h: nat, h': Handler)
    requires HeadersInv(cfg, s) && h in s.handlers && HandlerOnLadder(cfg, h')
    requires s'.handlers == s.handlers - {h} || s'.handlers == s.handlers[h := h']
    requires forall c :: c in s'.copies ==>
               (c in s.copies && s'.copies[c] == s.copies[c]) || CopyOnLadder(cfg, s'.copies[c])
    ensures HeadersInv(cfg, s')
  {}

  lemma HeadersClaim(cfg: Config, s: State, step: Step, s': State)
    requires HeadersInv(cfg, s) && Enabled(cfg, s, step) && s' == Apply(cfg, s, step)
    requires step.Begin? || step.InsertRow? || step.TakeOverRow? || step.ReadRow?
    ensures HeadersInv(cfg, s')
  {
    assert HandlerOnLadder(cfg, s.handlers[step.h]);
    HeadersHandler(cfg, s, s', step.h, s'.handlers[step.h]);
  }

  lemma HeadersSettle(cfg: Config, s: State, step: Step, s': State)
    requires HeadersInv(cfg, s) && Enabled(cfg, s, step) && s' == Apply(cfg, s, step)
    requires step.SendOk? || step.SendFail? || step.SettleSentRow? || step.ReleaseRow?
    ensures HeadersInv(cfg, s')
  {
    assert HandlerOnLadder(cfg, s.handlers[step.h]);
    HeadersHandler(cfg, s, s', step.h, s'.handlers[step.h]);
  }

  lemma HeadersExit(cfg: Config, s: State, step: Step, s': State)
    requires HeadersInv(cfg, s) && Enabled(cfg, s, step) && s' == Apply(cfg, s, step)
    requires step.SettleFailedRow? || step.AckCopy? || step.Crash?
    ensures HeadersInv(cfg, s')
  {
    var h := step.h;
    assert HandlerOnLadder(cfg, s.handlers[h]);
    HeadersHandler(cfg, s, s', h, if h in s'.handlers then s'.handlers[h] else s.handlers[h]);
  }

  lemma HeadersPublish(
      cfg: Config, s: State, h: nat, attempts: nat, place: Place, outcome: Outcome, s': State)
    requires HeadersInv(cfg, s) && h in s.handlers && attempts <= cfg.stages
    requires place == Dead || (place == Retry(attempts) && 1 <= attempts)
    requires s' == PublishedOn(cfg, s, h, attempts, place, outcome)
    ensures HeadersInv(cfg, s')
  {
    assert HandlerOnLadder(cfg, s.handlers[h]);
    HeadersHandler(cfg, s, s', h, if h in s'.handlers then s'.handlers[h] else s.handlers[h]);
  }

  lemma HeadersStep(cfg: Config, s: State, step: Step, s': State)
    requires HeadersInv(cfg, s) && Enabled(cfg, s, step) && s' == Apply(cfg, s, step)
    ensures HeadersInv(cfg, s')
  {
    match step
    case Begin(_, _) => HeadersClaim(cfg, s, step, s');
    case InsertRow(_, _) => HeadersClaim(cfg, s, step, s');
    case TakeOverRow(_, _) => HeadersClaim(cfg, s, step, s');
    case ReadRow(_, _) => HeadersClaim(cfg, s, step, s');
    case SendOk(_) => HeadersSettle(cfg, s, step, s');
    case SendFail(_, _) => HeadersSettle(cfg, s, step, s');
    case SettleSentRow(_, _) => HeadersSettle(cfg, s, step, s');
    case ReleaseRow(_, _) => HeadersSettle(cfg, s, step, s');
    case SettleFailedRow(_, _) => HeadersExit(cfg, s, step, s');
    case PublishRetry(h, outcome) =>
      assert HandlerOnLadder(cfg, s.handlers[h]);
      HeadersPublish(cfg, s, h, s.handlers[h].attempts + 1, Retry(s.handlers[h].attempts + 1), outcome, s');
    case PublishDead(h, outcome) =>
      assert HandlerOnLadder(cfg, s.handlers[h]);
      HeadersPublish(cfg, s, h, s.handlers[h].attempts, Dead, outcome, s');
    case AckCopy(_) => HeadersExit(cfg, s, step, s');
    case Crash(_) => HeadersExit(cfg, s, step, s');
    case _ =>
  }

  lemma {:induction false} HeadersAlways(cfg: Config, states: seq<State>, steps: seq<Step>, i: nat)
    requires Behaviour(cfg, states, steps) && i < |states|
    ensures HeadersInv(cfg, states[i])
  {
    if i > 0 {
      HeadersAlways(cfg, states, steps, i - 1);
      assert Linked(cfg, states[i - 1], steps[i - 1], states[i]);
      HeadersStep(cfg, states[i - 1], steps[i - 1], states[i]);
    }
  }

  // ---- One token per message, in smooth runs ----

  /** No crash, no requeue, and every statement or publish whose failure would abandon an unacked
      message succeeds. */
  predicate Smooth(step: Step) {
    && !step.Crash? && !step.Requeue?
    && (step.PublishRetry? || step.PublishDead? || step.SettleFailedRow? ==> step.outcome.Answered?)
  }

  // A copy already republished, only waiting for its ack.
  predicate Superseded(s: State, c: nat)
    requires c in s.copies
  {
    && s.copies[c].place.Unacked?
    && s.copies[c].place.handler in s.handlers
    && s.handlers[s.copies[c].place.handler].pc == Ack(Moved)
  }

  predicate Token(s: State, c: nat, origin: nat) {
    c in s.copies && s.copies[c].origin == origin && !Superseded(s, c)
  }

  ghost predicate Live(s: State, origin: nat) {
    exists c :: Token(s, c, origin)
  }

  ghost predicate Matched(s: State) {
    && (forall h :: h in s.handlers ==>
          var m := s.handlers[h];
          h < s.next && m.copy in s.copies && s.copies[m.copy] == Copy(m.body, m.attempts, Unacked(h), m.origin))
    && (forall c :: c in s.copies && s.copies[c].place.Unacked? ==>
          s.copies[c].place.handler in s.handlers && s.handlers[s.copies[c].place.handler].copy == c)
  }

  // How often the message behind a token has been dispatched, read off its place and header.
  function Expected(s: State, c: nat): nat
    requires c in s.copies
  {
    var copy := s.copies[c];
    if copy.body.Garbage? then 0
    else if copy.place.Dead? then copy.attempts + 1
    else if copy.place.Unacked? && copy.place.handler in s.handlers && s.handlers[copy.place.handler].pc != Start
    then copy.attempts + 1
    else copy.attempts
  }

  ghost predicate TokensOk(s: State) {
    && (forall c, d, o :: Token(s, c, o) && Token(s, d, o) ==> c == d)
    && (forall c :: c in s.copies ==> c < s.next && s.copies[c].origin in s.history.injected)
    && (forall c, o :: Token(s, c, o) ==>
          DispatchesOf(s, o) == Expected(s, c) && o !in s.history.finished && o !in s.history.overflowed)
  }

  ghost predicate OriginsOk(cfg: Config, s: State) {
    && s.history.finished !! s.history.overflowed
    && s.history.finished + s.history.overflowed <= s.history.injected
    && (forall o :: o in s.history.injected ==>
          o < s.next && (Live(s, o) || o in s.history.finished || o in s.history.overflowed))
    && (forall o :: DispatchesOf(s, o) <= MaxAttempts(cfg))
    && (forall o :: o !in s.history.injected ==> DispatchesOf(s, o) == 0)
  }

  ghost predicate TokenInv(cfg: Config, s: State) {
    Matched(s) && TokensOk(s) && OriginsOk(cfg, s)
  }

  // Same tokens, same account.
  lemma SameTokens(cfg: Config, s: State, s': State)
    requires TokenInv(cfg, s) && Matched(s') && s.next <= s'.next
    requires s'.history.(tally := map[]) == s.history.(tally := map[])
    requires s'.copies.Keys == s.copies.Keys
    requires forall c :: c in s.copies ==>
               && s'.copies[c].origin == s.copies[c].origin
               && Superseded(s', c) == Superseded(s, c) && Expected(s', c) == Expected(s, c)
    ensures TokenInv(cfg, s')
  {
    assert forall o :: DispatchesOf(s', o) == DispatchesOf(s, o);
    forall c, o | Token(s', c, o) ensures Token(s, c, o) {}
    forall o | Live(s, o) ensures Live(s', o) {
      var c :| Token(s, c, o);
      assert Token(s', c, o);
    }
  }

  // A handler moves on between two points that are neither the start nor an ack.
  lemma LocalKeeps(cfg: Config, s: State, s': State, h: nat, pc: Pc)
    requires TokenInv(cfg, s) && h in s.handlers
    requires s.handlers[h].pc != Start || s.handlers[h].body.Garbage?
    requires s.handlers[h].pc != Ack(Moved) && pc != Start && pc != Ack(Moved)
    requires s'.copies == s.copies && s'.next == s.next
    requires s'.history.(tally := map[]) == s.history.(tally := map[])
    requires s'.handlers == s.handlers[h := s.handlers[h].(pc := pc)]
    ensures TokenInv(cfg, s')
  {
    SameTokens(cfg, s, s');
  }

  // The dispatch of an alert: its own token moves from "attempts" to "attempts + 1" dispatches.
  lemma DispatchKeeps(cfg: Config, s: State, s': State, h: nat, lag: nat)
    requires TokenInv(cfg, s) && HeadersInv(cfg, s) && Enabled(cfg, s, Begin(h, lag))
    requires s.handlers[h].body.Alert? && s' == Begun(s, h, lag)
    ensures TokenInv(cfg, s')
  {
    var m := s.handlers[h];
    assert Token(s, m.copy, m.origin) && HandlerOnLadder(cfg, m);
    DispatchTokens(cfg, s, s', h);
    assert forall o :: DispatchesOf(s', o) == DispatchesOf(s, o) + (if o == m.origin then 1 else 0);
    assert TokensOk(s') by {
      forall c, o | Token(s', c, o) ensures Token(s, c, o) && DispatchesOf(s', o) == Expected(s', c) {
        assert Token(s, c, o);
      }
    }
    assert OriginsOk(cfg, s') by {
      forall o | o in s.history.injected ensures Live(s', o) || o in s.history.finished || o in s.history.overflowed {
        if Live(s, o) {
          var c :| Token(s, c, o);
          assert Token(s', c, o);
        }
      }
    }
  }

  lemma DispatchTokens(cfg: Config, s: State, s': State, h: nat)
    requires TokenInv(cfg, s) && h in s.handlers && s.handlers[h].pc == Start && s.handlers[h].body.Alert?
    requires s'.copies == s.copies && s'.next == s.next && h in s'.handlers && s'.handlers[h].pc.Insert?
    requires s'.handlers == s.handlers[h := s.handlers[h].(pc := s'.handlers[h].pc)]
    ensures Matched(s')
    ensures forall c, o :: Token(s', c, o) <==> Token(s, c, o)
    ensures forall c, o :: Token(s, c, o) ==>
              Expected(s', c) == Expected(s, c) + (if o == s.handlers[h].origin then 1 else 0)
  {
    var m := s.handlers[h];
    assert Token(s, m.copy, m.origin);
    forall c | c in s.copies && c != m.copy
      ensures Superseded(s', c) == Superseded(s, c) && Expected(s', c) == Expected(s, c) {}
  }

  lemma InjectKeeps(cfg: Config, s: State, body: Body)
    requires TokenInv(cfg, s)
    ensures TokenInv(cfg, Injected(cfg, s, body))
  {
    var s' := Injected(cfg, s, body);
    if body.Chan() in cfg.queues {
      assert Token(s', s.next, s.next);
      assert forall o :: DispatchesOf(s', o) == DispatchesOf(s, o);
      forall c, o | Token(s', c, o) && c != s.next ensures Token(s, c, o) && Expected(s', c) == Expected(s, c) {}
      forall o | Live(s, o) ensures Live(s', o) {
        var c :| Token(s, c, o);
        assert Token(s', c, o);
      }
    }
  }

  lemma DeliverTokens(s: State, s': State, c: nat)
    requires Matched(s) && c in s.copies && s.copies[c].place == Main && s.next !in s.handlers
    requires s'.copies == s.copies[c := s.copies[c].(place := Unacked(s.next))]
    requires s.next in s'.handlers && s'.handlers[s.next].pc == Start
    requires s'.handlers == s.handlers[s.next := s'.handlers[s.next]]
    ensures forall d :: d in s.copies ==> Superseded(s', d) == Superseded(s, d) && Expected(s', d) == Expected(s, d)
  {}

  lemma DeliverKeeps(cfg: Config, s: State, c: nat)
    requires TokenInv(cfg, s) && Enabled(cfg, s, Deliver(c))
    ensures TokenInv(cfg, Apply(cfg, s, Deliver(c)))
  {
    var s' := Apply(cfg, s, Deliver(c));
    assert Matched(s');
    DeliverTokens(s, s', c);
    SameTokens(cfg, s, s');
  }

  lemma ExpireKeeps(cfg: Config, s: State, c: nat)
    requires TokenInv(cfg, s) && Enabled(cfg, s, ExpireRetry(c))
    ensures TokenInv(cfg, Apply(cfg, s, ExpireRetry(c)))
  {
    var s' := Apply(cfg, s, ExpireRetry(c));
    assert Matched(s');
    SameTokens(cfg, s, s');
  }

  // A message's token passes from copy `c` to a new copy; everything else stays.
  ghost predicate Passes(cfg: Config, s: State, s': State, c: nat, o: nat) {
    && TokenInv(cfg, s) && Matched(s') && s'.history == s.history && s'.next == s.next + 1
    && s'.copies.Keys == s.copies.Keys + {s.next} && s'.copies[s.next].origin == o
    && Token(s, c, o) && !Token(s', c, o) && Token(s', s.next, o) && Expected(s', s.next) == Expected(s, c)
    && (forall d :: d in s.copies ==> s'.copies[d] == s.copies[d])
    && (forall d :: d in s.copies && d != c ==>
          Superseded(s', d) == Superseded(s, d) && Expected(s', d) == Expected(s, d))
  }

  lemma PassKeepsTokens(cfg: Config, s: State, s': State, c: nat, o: nat)
    requires Passes(cfg, s, s', c, o)
    ensures TokensOk(s')
  {
    forall d, p | Token(s', d, p) && d != s.next
      ensures && Token(s, d, p) && d != c && p != o && Expected(s', d) == Expected(s, d)
              && DispatchesOf(s', p) == DispatchesOf(s, p)
    {
      assert Token(s, d, p);
    }
  }

  lemma PassKeepsOrigins(cfg: Config, s: State, s': State, c: nat, o: nat)
    requires Passes(cfg, s, s', c, o)
    ensures OriginsOk(cfg, s')
  {
    assert forall p :: DispatchesOf(s', p) == DispatchesOf(s, p);
    forall p | p in s.history.injected ensures Live(s', p) || p in s.history.finished || p in s.history.overflowed {
      if Live(s, p) {
        var d :| Token(s, d, p);
        assert d != c ==> Token(s', d, p);
      }
    }
  }

  // Publish and supersede in one step.
  ghost predicate Publishes(cfg: Config, s: State, s': State, h: nat, attempts: nat, place: Place) {
    && h in s.handlers && s.handlers[h].body.Chan() in cfg.queues
    && (s.handlers[h].pc.Republish? || s.handlers[h].pc.Park?)
    && s' == PublishedOn(cfg, s, h, attempts, place, Answered)
    && (|| (place == Dead && attempts == s.handlers[h].attempts)
        || (place == Retry(attempts) && attempts == s.handlers[h].attempts + 1 && s.handlers[h].body.Alert?))
  }

  lemma PublishMatches(cfg: Config, s: State, s': State, h: nat, attempts: nat, place: Place)
    requires TokenInv(cfg, s) && Publishes(cfg, s, s', h, attempts, place)
    ensures Matched(s')
  {}

  lemma PublishKeeps(cfg: Config, s: State, s': State, h: nat, attempts: nat, place: Place)
    requires TokenInv(cfg, s) && Publishes(cfg, s, s', h, attempts, place)
    ensures TokenInv(cfg, s')
  {
    PublishMatches(cfg, s, s', h, attempts, place);
    PublishPasses(cfg, s, s', h, attempts, place);
    PassKeepsTokens(cfg, s, s', s.handlers[h].copy, s.handlers[h].origin);
    PassKeepsOrigins(cfg, s, s', s.handlers[h].copy, s.handlers[h].origin);
  }

  lemma PublishPasses(cfg: Config, s: State, s': State, h: nat, attempts: nat, place: Place)
    requires TokenInv(cfg, s) && Publishes(cfg, s, s', h, attempts, place) && Matched(s')
    ensures Passes(cfg, s, s', s.handlers[h].copy, s.handlers[h].origin)
  {
    var m := s.handlers[h];
    assert Token(s, m.copy, m.origin) && Superseded(s', m.copy);
    forall d | d in s.copies && d != m.copy
      ensures Superseded(s', d) == Superseded(s, d) && Expected(s', d) == Expected(s, d)
    {
      OtherView(s, s', h, d);
    }
  }

  // A copy looks as before while only the handler of another copy changes.
  lemma OtherView(s: State, s': State, h: nat, d: nat)
    requires Matched(s) && h in s.handlers && d in s.copies && d != s.handlers[h].copy
    requires d in s'.copies && s'.copies[d] == s.copies[d]
    requires forall g :: g != h ==> (g in s'.handlers <==> g in s.handlers)
    requires forall g :: g != h && g in s.handlers ==> s'.handlers[g] == s.handlers[g]
    ensures Superseded(s', d) == Superseded(s, d) && Expected(s', d) == Expected(s, d)
  {}

  // The other copies look as before once a handler has acked its own.
  lemma AckViews(cfg: Config, s: State, s': State, h: nat)
    requires TokenInv(cfg, s) && Enabled(cfg, s, AckCopy(h)) && s' == Acked(s, h)
    ensures s'.copies == s.copies - {s.handlers[h].copy} && Matched(s')
    ensures forall c :: c in s'.copies ==> Superseded(s', c) == Superseded(s, c) && Expected(s', c) == Expected(s, c)
  {
    var m := s.handlers[h];
    assert m.copy in s.copies && s.copies[m.copy].place == Unacked(h);
    assert s'.copies == s.copies - {m.copy} && s'.handlers == s.handlers - {h};
    forall c | c in s'.copies ensures Superseded(s', c) == Superseded(s, c) && Expected(s', c) == Expected(s, c) {
      OtherView(s, s', h, c);
    }
  }

  lemma AckKeeps(cfg: Config, s: State, s': State, h: nat)
    requires TokenInv(cfg, s) && Enabled(cfg, s, AckCopy(h)) && s' == Acked(s, h)
    ensures TokenInv(cfg, s')
  {
    var m := s.handlers[h];
    AckViews(cfg, s, s', h);
    if m.pc.reason == Delivered { assert Token(s, m.copy, m.origin); }
    AckTokens(cfg, s, s', m);
    AckOrigins(cfg, s, s', m);
  }

  // The copy of `m` goes; if it was a token its message is finished.
  ghost predicate Acks(s: State, s': State, m: Handler) {
    && s'.copies == s.copies - {m.copy} && s'.next == s.next
    && (forall c :: c in s'.copies ==> Superseded(s', c) == Superseded(s, c) && Expected(s', c) == Expected(s, c))
    && (|| (s'.history == s.history && forall o :: !Token(s, m.copy, o))
        || (Token(s, m.copy, m.origin) && s'.history == s.history.(finished := s.history.finished + {m.origin})))
  }

  lemma AckTokens(cfg: Config, s: State, s': State, m: Handler)
    requires TokenInv(cfg, s) && Acks(s, s', m)
    ensures TokensOk(s')
  {
    forall c, o | Token(s', c, o) ensures Token(s, c, o) && c != m.copy && DispatchesOf(s', o) == DispatchesOf(s, o) {
      assert Token(s, c, o);
    }
  }

  lemma AckOrigins(cfg: Config, s: State, s': State, m: Handler)
    requires TokenInv(cfg, s) && Acks(s, s', m)
    ensures OriginsOk(cfg, s')
  {
    assert forall o :: DispatchesOf(s', o) == DispatchesOf(s, o);
    forall o | Live(s, o) ensures Live(s', o) || o in s'.history.finished {
      var c :| Token(s, c, o);
      assert c != m.copy ==> Token(s', c, o);
    }
  }

  lemma OverflowKeeps(cfg: Config, s: State, c: nat)
    requires TokenInv(cfg, s) && Enabled(cfg, s, Overflow(c))
    ensures TokenInv(cfg, Overflowed(s, c))
  {
    var s' := Overflowed(s, c);
    assert Token(s, c, s.copies[c].origin);
    assert forall o :: DispatchesOf(s', o) == DispatchesOf(s, o);
    assert Matched(s');
    forall d | d in s'.copies
      ensures Superseded(s', d) == Superseded(s, d) && Expected(s', d) == Expected(s, d) {}
    forall d, o | Token(s', d, o) ensures Token(s, d, o) && d != c {}
    forall o | Live(s, o) ensures Live(s', o) || o in s'.history.overflowed {
      var d :| Token(s, d, o);
      assert d != c ==> Token(s', d, o);
    }
  }

  lemma InsertStep(cfg: Config, s: State, h: nat, outcome: Outcome, s': State)
    requires TokenInv(cfg, s) && Enabled(cfg, s, InsertRow(h, outcome)) && s' == InsertedRow(cfg, s, h, outcome)
    ensures TokenInv(cfg, s')
  {
    LocalKeeps(cfg, s, s', h, s'.handlers[h].pc);
  }

  lemma TakeOverStep(cfg: Config, s: State, h: nat, outcome: Outcome, s': State)
    requires TokenInv(cfg, s) && Enabled(cfg, s, TakeOverRow(h, outcome)) && s' == TakenOverRow(cfg, s, h, outcome)
    ensures TokenInv(cfg, s')
  {
    LocalKeeps(cfg, s, s', h, s'.handlers[h].pc);
  }

  lemma ReadStep(cfg: Config, s: State, h: nat, outcome: Outcome, s': State)
    requires TokenInv(cfg, s) && Enabled(cfg, s, ReadRow(h, outcome)) && s' == ReadRowBack(cfg, s, h, outcome)
    ensures TokenInv(cfg, s')
  {
    LocalKeeps(cfg, s, s', h, s'.handlers[h].pc);
  }

  lemma ClaimSteps(cfg: Config, s: State, step: Step, s': State)
    requires TokenInv(cfg, s) && Enabled(cfg, s, step) && s' == Apply(cfg, s, step)
    requires step.InsertRow? || step.TakeOverRow? || step.ReadRow?
    ensures TokenInv(cfg, s')
  {
    match step
    case InsertRow(h, outcome) => InsertStep(cfg, s, h, outcome, s');
    case TakeOverRow(h, outcome) => TakeOverStep(cfg, s, h, outcome, s');
    case ReadRow(h, outcome) => ReadStep(cfg, s, h, outcome, s');
  }

  lemma ReleaseSteps(cfg: Config, s: State, step: Step, s': State)
    requires TokenInv(cfg, s) && Enabled(cfg, s, step) && s' == Apply(cfg, s, step)
    requires step.SendFail? || step.ReleaseRow?
    ensures TokenInv(cfg, s')
  {
    LocalKeeps(cfg, s, s', step.h, s'.handlers[step.h].pc);
  }

  lemma SettleSteps(cfg: Config, s: State, step: Step, s': State)
    requires TokenInv(cfg, s) && Enabled(cfg, s, step) && s' == Apply(cfg, s, step) && Smooth(step)
    requires step.SendOk? || step.SettleSentRow? || step.SettleFailedRow?
    ensures TokenInv(cfg, s')
  {
    LocalKeeps(cfg, s, s', step.h, s'.handlers[step.h].pc);
  }

  lemma QueueStep(cfg: Config, s: State, step: Step, s': State)
    requires TokenInv(cfg, s) && Enabled(cfg, s, step) && s' == Apply(cfg, s, step)
    requires step.Tick? || step.Wipe? || step.Inject?
    ensures TokenInv(cfg, s')
  {
    if step.Inject? { InjectKeeps(cfg, s, step.body); } else { SameTokens(cfg, s, s'); }
  }

  lemma CopyStep(cfg: Config, s: State, step: Step, s': State)
    requires TokenInv(cfg, s) && Enabled(cfg, s, step) && s' == Apply(cfg, s, step)
    requires step.Deliver? || step.ExpireRetry? || step.Overflow? || step.AckCopy?
    ensures TokenInv(cfg, s')
  {
    match step
    case Deliver(c) => DeliverKeeps(cfg, s, c);
    case ExpireRetry(c) => ExpireKeeps(cfg, s, c);
    case Overflow(c) => OverflowKeeps(cfg, s, c);
    case AckCopy(h) => AckKeeps(cfg, s, s', h);
  }

  lemma RetryStep(cfg: Config, s: State, h: nat, s': State)
    requires TokenInv(cfg, s) && HeadersInv(cfg, s) && Coverage.CoverInv(cfg, s)
    requires Enabled(cfg, s, PublishRetry(h, Answered))
    requires s' == PublishedOn(cfg, s, h, s.handlers[h].attempts + 1, Retry(s.handlers[h].attempts + 1), Answered)
    ensures TokenInv(cfg, s')
  {
    var m := s.handlers[h];
    assert HandlerOnLadder(cfg, m) && Coverage.HandlerSafe(cfg, s, m);
    PublishKeeps(cfg, s, s', h, m.attempts + 1, Retry(m.attempts + 1));
  }

  lemma ParkStep(cfg: Config, s: State, h: nat, s': State)
    requires TokenInv(cfg, s) && Coverage.CoverInv(cfg, s) && Enabled(cfg, s, PublishDead(h, Answered))
    requires s' == PublishedOn(cfg, s, h, s.handlers[h].attempts, Dead, Answered)
    ensures TokenInv(cfg, s')
  {
    assert Coverage.HandlerSafe(cfg, s, s.handlers[h]);
    PublishKeeps(cfg, s, s', h, s.handlers[h].attempts, Dead);
  }

  lemma BeginStep(cfg: Config, s: State, step: Step, s': State)
    requires TokenInv(cfg, s) && HeadersInv(cfg, s)
    requires Enabled(cfg, s, step) && s' == Apply(cfg, s, step) && step.Begin?
    ensures TokenInv(cfg, s')
  {
    if s.handlers[step.h].body.Garbage? {
      LocalKeeps(cfg, s, s', step.h, Park);
    } else {
      DispatchKeeps(cfg, s, s', step.h, step.lag);
    }
  }

  lemma HandlerStep(cfg: Config, s: State, step: Step, s': State)
    requires TokenInv(cfg, s) && Enabled(cfg, s, step) && s' == Apply(cfg, s, step) && Smooth(step)
    requires || step.SendOk? || step.SettleSentRow? || step.SettleFailedRow? || step.InsertRow?
             || step.TakeOverRow? || step.ReadRow? || step.SendFail? || step.ReleaseRow?
    ensures TokenInv(cfg, s')
  {
    if step.SendOk? || step.SettleSentRow? || step.SettleFailedRow? {
      SettleSteps(cfg, s, step, s');
    } else if step.SendFail? || step.ReleaseRow? {
      ReleaseSteps(cfg, s, step, s');
    } else {
      ClaimSteps(cfg, s, step, s');
    }
  }

  lemma PublishStep(cfg: Config, s: State, step: Step, s': State)
    requires TokenInv(cfg, s) && HeadersInv(cfg, s) && Coverage.CoverInv(cfg, s)
    requires Enabled(cfg, s, step) && s' == Apply(cfg, s, step) && Smooth(step)
    requires step.PublishRetry? || step.PublishDead?
    ensures TokenInv(cfg, s')
  {
    if step.PublishRetry? { RetryStep(cfg, s, step.h, s'); } else { ParkStep(cfg, s, step.h, s'); }
  }

  lemma TokenStep(cfg: Config, s: State, step: Step, s': State)
    requires TokenInv(cfg, s) && HeadersInv(cfg, s) && Coverage.CoverInv(cfg, s)
    requires Enabled(cfg, s, step) && s' == Apply(cfg, s, step) && Smooth(step)
    ensures TokenInv(cfg, s')
  {
    if step.Begin? {
      BeginStep(cfg, s, step, s');
    } else if step.PublishRetry? || step.PublishDead? {
      PublishStep(cfg, s, step, s');
    } else if step.Tick? || step.Wipe? || step.Inject? {
      QueueStep(cfg, s, step, s');
    } else if step.Deliver? || step.ExpireRetry? || step.Overflow? || step.AckCopy? {
      CopyStep(cfg, s, step, s');
    } else {
      HandlerStep(cfg, s, step, s');
    }
  }

  lemma {:induction false} TokensAlways(cfg: Config, states: seq<State>, steps: seq<Step>, i: nat)
    requires Behaviour(cfg, states, steps) && i < |states|
    requires forall k :: 0 <= k < |steps| ==> Smooth(steps[k])
    ensures TokenInv(cfg, states[i]) && HeadersInv(cfg, states[i]) && Coverage.CoverInv(cfg, states[i])
  {
    if i == 0 {
      assert TokenInv(cfg, states[0]) && Coverage.CoverInv(cfg, states[0]);
    } else {
      TokensAlways(cfg, states, steps, i - 1);
      assert Linked(cfg, states[i - 1], steps[i - 1], states[i]);
      HeadersStep(cfg, states[i - 1], steps[i - 1], states[i]);
      Coverage.CoverStep(cfg, states[i - 1], steps[i - 1]);
      TokenStep(cfg, states[i - 1], steps[i - 1], states[i]);
    }
  }

  /** The ladder's rungs, in every run: headers stay in 0..n, a copy waiting on a retry stage sits on
      the declared stage its header names, and the next republish goes to a declared stage, one rung
      up, with strictly fewer attempts left. */
  lemma HeadersStayOnLadder(cfg: Config, states: seq<State>, steps: seq<Step>, i: nat)
    requires Behaviour(cfg, states, steps) && i < |states|
    ensures forall c :: c in states[i].copies ==>
              var copy := states[i].copies[c];
              copy.attempts <= cfg.stages && (copy.place.Retry? ==> 1 <= copy.place.stage == copy.attempts)
    ensures i < |steps| && steps[i].PublishRetry? ==>
              steps[i].h in states[i].handlers &&
              var h := states[i].handlers[steps[i].h];
              var c := states[i].next;
              && 1 <= h.attempts + 1 <= cfg.stages
              && (steps[i].outcome.Lands() ==>
                    && c in states[i + 1].copies && states[i + 1].copies[c].place == Retry(h.attempts + 1)
                    && MaxAttempts(cfg) - states[i + 1].copies[c].attempts < MaxAttempts(cfg) - h.attempts)
  {
    HeadersAlways(cfg, states, steps, i);
    if i < |steps| && steps[i].PublishRetry? {
      assert Linked(cfg, states[i], steps[i], states[i + 1]);
      assert HandlerOnLadder(cfg, states[i].handlers[steps[i].h]);
      CoverAlways(cfg, states, steps, i);
      assert Coverage.HandlerSafe(cfg, states[i], states[i].handlers[steps[i].h]);
    }
  }

  lemma {:induction false} CoverAlways(cfg: Config, states: seq<State>, steps: seq<Step>, i: nat)
    requires Behaviour(cfg, states, steps) && i < |states|
    ensures Coverage.CoverInv(cfg, states[i])
  {
    if i > 0 {
      CoverAlways(cfg, states, steps, i - 1);
      assert Linked(cfg, states[i - 1], steps[i - 1], states[i]);
      Coverage.CoverStep(cfg, states[i - 1], steps[i - 1]);
    }
  }

  /** Copies are conserved in smooth runs: every injected message is in exactly one of three states
      (one live copy not yet superseded; delivered; shed by a full dead queue), no copy exists that
      was not injected, and a message is dispatched at most n + 1 times. */
  lemma MessagesAreConserved(cfg: Config, states: seq<State>, steps: seq<Step>, i: nat)
    requires Behaviour(cfg, states, steps) && i < |states|
    requires forall k :: 0 <= k < |steps| ==> Smooth(steps[k])
    ensures var s := states[i];
            && (forall c :: c in s.copies ==> s.copies[c].origin in s.history.injected)
            && s.history.finished !! s.history.overflowed
            && (forall o :: o in s.history.injected ==>
                  (Live(s, o) <==> o !in s.history.finished && o !in s.history.overflowed))
            && (forall c, d, o :: Token(s, c, o) && Token(s, d, o) ==> c == d)
            && (forall o :: DispatchesOf(s, o) <= MaxAttempts(cfg))
  {
    TokensAlways(cfg, states, steps, i);
    var s := states[i];
    forall o | o in s.history.injected && Live(s, o)
      ensures o !in s.history.finished && o !in s.history.overflowed
    {
      var c :| Token(s, c, o);
    }
  }

  // ---- Retrying ends ----

  function Count(dispatched: map<nat, nat>, o: nat): nat {
    if o in dispatched then dispatched[o] else 0
  }

  ghost function Total(dispatched: map<nat, nat>, os: set<nat>): nat {
    if os == {} then 0 else
    var o :| o in os;
    Count(dispatched, o) + Total(dispatched, os - {o})
  }

  lemma {:induction false} TotalSplits(dispatched: map<nat, nat>, os: set<nat>, x: nat)
    requires x in os
    ensures Total(dispatched, os) == Count(dispatched, x) + Total(dispatched, os - {x})
  {
    var o :| o in os && Total(dispatched, os) == Count(dispatched, o) + Total(dispatched, os - {o});
    if o != x {
      TotalSplits(dispatched, os - {o}, x);
      TotalSplits(dispatched, os - {x}, o);
      assert os - {o} - {x} == os - {x} - {o};
    }
  }

  lemma {:induction false} TotalAgrees(d: map<nat, nat>, d': map<nat, nat>, os: set<nat>)
    requires forall o :: o in os ==> Count(d, o) == Count(d', o)
    ensures Total(d, os) == Total(d', os)
  {
    if os != {} {
      var o :| o in os;
      TotalSplits(d, os, o);
      TotalSplits(d', os, o);
      TotalAgrees(d, d', os - {o});
    }
  }

  lemma {:induction false} TotalBounded(d: map<nat, nat>, os: set<nat>, most: nat)
    requires forall o :: o in os ==> Count(d, o) <= most
    ensures Total(d, os) <= most * |os|
  {
    if os != {} {
      var o :| o in os;
      TotalSplits(d, os, o);
      TotalBounded(d, os - {o}, most);
      OneMore(most, |os - {o}|);
    }
  }

  lemma OneMore(a: nat, b: nat)
    ensures a * (b + 1) == a * b + a
  {}

  predicate Dispatches(s: State, step: Step) {
    step.Begin? && AlertAt(s, step.h)
  }

  ghost function DispatchCount(states: seq<State>, steps: seq<Step>, i: nat): nat
    requires |states| == |steps| + 1 && i <= |steps|
  {
    if i == 0 then 0
    else DispatchCount(states, steps, i - 1) + (if Dispatches(states[i - 1], steps[i - 1]) then 1 else 0)
  }

  // Which steps touch the dispatch record and the set of injected messages.
  ghost predicate Recorded(cfg: Config, s: State, step: Step, s': State) {
    && s'.history.dispatched ==
       (if Dispatches(s, step)
        then s.history.dispatched[s.handlers[step.h].origin := DispatchesOf(s, s.handlers[step.h].origin) + 1]
        else s.history.dispatched)
    && s'.history.injected ==
       s.history.injected + (if step.Inject? && step.body.Chan() in cfg.queues then {s.next} else {})
  }

  lemma RecordClaim(cfg: Config, s: State, step: Step, s': State)
    requires Enabled(cfg, s, step) && s' == Apply(cfg, s, step)
    requires step.Begin? || step.InsertRow? || step.TakeOverRow? || step.ReadRow? || step.SendOk? || step.SendFail?
    ensures Recorded(cfg, s, step, s')
  {}

  lemma RecordSettle(cfg: Config, s: State, step: Step, s': State)
    requires Enabled(cfg, s, step) && s' == Apply(cfg, s, step)
    requires || step.SettleSentRow? || step.ReleaseRow? || step.SettleFailedRow? || step.PublishRetry?
             || step.PublishDead? || step.AckCopy? || step.Crash?
    ensures Recorded(cfg, s, step, s')
  {}

  lemma RecordStep(cfg: Config, s: State, step: Step, s': State)
    requires Enabled(cfg, s, step) && s' == Apply(cfg, s, step)
    ensures Recorded(cfg, s, step, s')
  {
    if step.Begin? || step.InsertRow? || step.TakeOverRow? || step.ReadRow? || step.SendOk? || step.SendFail? {
      RecordClaim(cfg, s, step, s');
    } else if step.SettleSentRow? || step.ReleaseRow? || step.SettleFailedRow? || step.PublishRetry?
              || step.PublishDead? || step.AckCopy? || step.Crash? {
      RecordSettle(cfg, s, step, s');
    }
  }

  lemma TotalStep(cfg: Config, s: State, step: Step, d: map<nat, nat>, os: set<nat>, d': map<nat, nat>, os': set<nat>)
    requires TokenInv(cfg, s) && d == s.history.dispatched && os == s.history.injected
    requires d' == if Dispatches(s, step)
                   then d[s.handlers[step.h].origin := Count(d, s.handlers[step.h].origin) + 1] else d
    requires os' == os || (os' == os + {s.next} && !Dispatches(s, step))
    ensures Total(d', os') == Total(d, os) + (if Dispatches(s, step) then 1 else 0)
  {
    if Dispatches(s, step) {
      var o := s.handlers[step.h].origin;
      assert s.copies[s.handlers[step.h].copy].origin == o;
      TotalSplits(d, os, o);
      TotalSplits(d', os, o);
      TotalAgrees(d, d', os - {o});
    } else if os' != os {
      assert s.next !in os && DispatchesOf(s, s.next) == 0;
      TotalSplits(d, os', s.next);
      assert os' - {s.next} == os;
    }
  }

  lemma RecordTotal(cfg: Config, s: State, step: Step, s': State)
    requires TokenInv(cfg, s) && Recorded(cfg, s, step, s')
    ensures Total(s'.history.dispatched, s'.history.injected)
            == Total(s.history.dispatched, s.history.injected) + (if Dispatches(s, step) then 1 else 0)
  {
    TotalStep(cfg, s, step, s.history.dispatched, s.history.injected, s'.history.dispatched, s'.history.injected);
  }

  lemma {:induction false} CountIsTotal(cfg: Config, states: seq<State>, steps: seq<Step>, i: nat)
    requires Behaviour(cfg, states, steps) && i <= |steps|
    requires forall k :: 0 <= k < |steps| ==> Smooth(steps[k])
    ensures DispatchCount(states, steps, i) == Total(states[i].history.dispatched, states[i].history.injected)
  {
    if i > 0 {
      CountIsTotal(cfg, states, steps, i - 1);
      TokensAlways(cfg, states, steps, i - 1);
      assert Linked(cfg, states[i - 1], steps[i - 1], states[i]);
      RecordStep(cfg, states[i - 1], steps[i - 1], states[i]);
      RecordTotal(cfg, states[i - 1], steps[i - 1], states[i]);
    }
  }

  /** Retrying ends: a smooth run contains at most n + 1 dispatches per injected message, however
      often channels fail and consumers find each other in flight. */
  lemma RetryingEnds(cfg: Config, states: seq<State>, steps: seq<Step>)
    requires Behaviour(cfg, states, steps)
    requires forall k :: 0 <= k < |steps| ==> Smooth(steps[k])
    ensures DispatchCount(states, steps, |steps|) <= MaxAttempts(cfg) * |states[|steps|].history.injected|
  {
    var s := states[|steps|];
    CountIsTotal(cfg, states, steps, |steps|);
    TokensAlways(cfg, states, steps, |steps|);
    forall o | o in s.history.injected ensures Count(s.history.dispatched, o) <= MaxAttempts(cfg) {
      assert DispatchesOf(s, o) <= MaxAttempts(cfg);
    }
    TotalBounded(s.history.dispatched, s.history.injected, MaxAttempts(cfg));
  }
}
