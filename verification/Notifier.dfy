/** The consumer's handler and the notifier's dispatch as the straight-line code they are, with what
    the database, the broker and the channel answer as parameters; and the proof that a handler left
    alone is one run of the interleaved protocol in `Delivery`. */
module Notifier {
  import opened Domain
  import opened DeliveryLog
  import D = Delivery
  import R = Routing

  datatype SendReply = Accepts | Rejects(permanent: bool)

  // What every call of one handler invocation comes to.
  datatype World = World(
    now: int,
    claim: ClaimAnswers,
    send: SendReply,
    release: Outcome,
    settleSent: Outcome,
    settleFailed: Outcome,
    publish: Outcome)

  datatype DispatchResult = Delivered | Skipped | Throws(permanent: bool)

  datatype Dispatched = Dispatched(log: Table, result: DispatchResult)

  function Sending(t: Table, p: Pair, w: World): Dispatched {
    match w.send
    case Accepts =>
      Dispatched(if w.settleSent.Lands() then Settled(t, p, Sent) else t,
                 if w.settleSent.Answered? then Delivered else Throws(false))
    case Rejects(permanent) =>
      Dispatched(if w.release.Lands() then Released(t, p) else t, Throws(permanent))
  }

  function DispatchOf(t: Table, p: Pair, registered: bool, w: World): Dispatched {
    if !registered then Dispatched(t, Throws(true)) else
    var claim := ClaimOf(t, p, w.now, w.now - CLAIM_LEASE_MS, w.claim);
    if claim.result == Some(Claimed) then Sending(claim.log, p, w)
    else if claim.result == Some(Duplicate) then Dispatched(claim.log, Skipped)
    else Dispatched(claim.log, Throws(false))
  }

  // A handler has claimed the row at most `age` milliseconds ago.
  predicate ClaimedWithin(t: Table, p: Pair, now: int, age: int) {
    p in t && t[p].claimedAt.Some? && now - t[p].claimedAt.value <= age
  }

  class NotifierService {
    const deliveries: DeliveryTable
    const senders: set<Channel>

    constructor (deliveries: DeliveryTable, senders: set<Channel>)
      ensures this.deliveries == deliveries && this.senders == senders
    {
      this.deliveries, this.senders := deliveries, senders;
    }

    method Dispatch(p: Pair, w: World) returns (result: DispatchResult)
      modifies deliveries
      ensures Dispatched(deliveries.rows, result) == DispatchOf(old(deliveries.rows), p, p.channel in senders, w)
      ensures deliveries.rows - {p} == old(deliveries.rows) - {p}
      // No implementation: a permanent failure, and nothing touched.
      ensures p.channel !in senders ==> result == Throws(true) && deliveries.rows == old(deliveries.rows)
      ensures p.channel in senders && w.claim.AllAnswered() ==>
                var t := old(deliveries.rows);
                // Already sent: skipped. Claimed within the last minute: left to its holder.
                && (result == Skipped <==> IsSent(t, p))
                && (IsSent(t, p) || ClaimedWithin(t, p, w.now, 60_000) ==> deliveries.rows == t)
                && (!IsSent(t, p) && ClaimedWithin(t, p, w.now, 60_000) ==> result == Throws(false))
                // Otherwise the channel decides, and the row shows it once the write has landed.
                && (!IsSent(t, p) && !ClaimedWithin(t, p, w.now, 60_000) ==>
                      && p in deliveries.rows
                      && (w.send.Rejects? ==>
                            && result == Throws(w.send.permanent) && deliveries.rows[p].status == Pending
                            && deliveries.rows[p].claimedAt == if w.release.Lands() then None else Some(w.now))
                      && (w.send.Accepts? ==>
                            && result == (if w.settleSent.Answered? then Delivered else Throws(false))
                            && deliveries.rows[p].status == if w.settleSent.Lands() then Sent else Pending))
    {
      // No implementation: retrying cannot conjure one.
      if p.channel !in senders {
        return Throws(true);
      }
      var claim := deliveries.Claim(p, w.now, w.now - CLAIM_LEASE_MS, w.claim);
      if claim == Some(Duplicate) {
        return Skipped;
      }
      // In flight elsewhere, or the database failed: both are retried.
      if claim != Some(Claimed) {
        return Throws(false);
      }
      if w.send.Rejects? {
        // Best effort: a lost release leaves the lease to expire.
        if w.release.Lands() {
          deliveries.ReleaseClaim(p);
        }
        return Throws(w.send.permanent);
      }
      if w.settleSent.Lands() {
        deliveries.Settle(p, Sent);
      }
      return if w.settleSent.Answered? then Delivered else Throws(false);
    }
  }

  // ---- The handler ----

  predicate HasStatus(t: Table, p: Pair, status: Status) {
    p in t && t[p].status == status
  }

  datatype Message = Message(body: D.Body, attempts: nat)

  datatype Publication = Publication(channel: Channel, kind: R.Kind, attempts: nat) {
    function Key(): string { R.KeyOf(channel, kind) }
  }

  datatype Processed = Processed(log: Table, published: Option<Publication>, acked: bool)

  // Publish, then ack only what was accepted.
  function Moving(t: Table, pub: Publication, outcome: Outcome): Processed {
    Processed(t, if outcome.Lands() then Some(pub) else None, outcome.Answered?)
  }

  function FailureOf(t: Table, p: Pair, attempts: nat, stages: nat, permanent: bool, w: World): Processed {
    if !permanent && attempts + 1 < stages + 1 then
      Moving(t, Publication(p.channel, R.Stage(attempts + 1), attempts + 1), w.publish)
    else
      var settled := if w.settleFailed.Lands() then Settled(t, p, Failed) else t;
      if !w.settleFailed.Answered? then Processed(settled, None, false)
      else Moving(settled, Publication(p.channel, R.Parked, attempts), w.publish)
  }

  function ProcessOf(t: Table, msg: Message, stages: nat, registered: bool, w: World): Processed {
    if msg.body.Garbage? then Moving(t, Publication(msg.body.channel, R.Parked, msg.attempts), w.publish)
    else
      var p := msg.body.pair;
      var d := DispatchOf(t, p, registered, w);
      if d.result.Throws? then FailureOf(d.log, p, msg.attempts, stages, d.result.permanent, w)
      else Processed(d.log, None, true)
  }

  class RabbitConsumer {
    const notifier: NotifierService
    const stages: nat
    var published: seq<Publication>

    constructor (notifier: NotifierService, stages: nat)
      ensures this.notifier == notifier && this.stages == stages && published == []
    {
      this.notifier, this.stages, published := notifier, stages, [];
    }

    method Republish(pub: Publication, outcome: Outcome) returns (acked: bool)
      modifies this
      ensures published == old(published) + if outcome.Lands() then [pub] else []
      ensures acked <==> outcome.Answered?
    {
      if outcome.Lands() {
        published := published + [pub];
      }
      acked := outcome.Answered?;
    }

    method HandleFailure(msg: Message, permanent: bool, w: World) returns (acked: bool)
      requires msg.body.Alert?
      modifies this, notifier.deliveries
      ensures var out := FailureOf(old(notifier.deliveries.rows), msg.body.pair, msg.attempts, stages, permanent, w);
              && notifier.deliveries.rows == out.log && acked == out.acked
              && published == old(published) + if out.published.Some? then [out.published.value] else []
      // A permanent failure and a last attempt end: FAILED, then the dead queue with the header as it was.
      ensures permanent || msg.attempts >= stages ==>
                && notifier.deliveries.rows - {msg.body.pair} == old(notifier.deliveries.rows) - {msg.body.pair}
                && (w.settleFailed.Lands() ==> HasStatus(notifier.deliveries.rows, msg.body.pair, Failed))
                && published == old(published)
                     + (if w.settleFailed.Answered? && w.publish.Lands()
                        then [Publication(msg.body.Chan(), R.Parked, msg.attempts)] else [])
                && (acked <==> w.settleFailed.Answered? && w.publish.Answered?)
      // Any other failure climbs one stage and leaves the log alone.
      ensures !permanent && msg.attempts < stages ==>
                && notifier.deliveries.rows == old(notifier.deliveries.rows)
                && published == old(published)
                     + (if w.publish.Lands()
                        then [Publication(msg.body.Chan(), R.Stage(msg.attempts + 1), msg.attempts + 1)] else [])
                && (acked <==> w.publish.Answered?)
    {
      var p := msg.body.pair;
      var thisAttempt := msg.attempts + 1;
      if permanent || thisAttempt >= stages + 1 {
        if w.settleFailed.Lands() {
          notifier.deliveries.Settle(p, Failed);
        }
        if !w.settleFailed.Answered? {
          return false;
        }
        acked := Republish(Publication(p.channel, R.Parked, msg.attempts), w.publish);
        return;
      }
      acked := Republish(Publication(p.channel, R.Stage(thisAttempt), thisAttempt), w.publish);
    }

    method Process(msg: Message, w: World) returns (acked: bool)
      modifies this, notifier.deliveries
      ensures var out := ProcessOf(old(notifier.deliveries.rows), msg, stages, msg.body.Chan() in notifier.senders, w);
              && notifier.deliveries.rows == out.log && acked == out.acked
              && published == old(published) + if out.published.Some? then [out.published.value] else []
      // What does not parse is parked unread.
      ensures msg.body.Garbage? ==>
                && notifier.deliveries.rows == old(notifier.deliveries.rows) && (acked <==> w.publish.Answered?)
                && published == old(published)
                     + if w.publish.Lands() then [Publication(msg.body.channel, R.Parked, msg.attempts)] else []
      // An alert is let go of only when its row reads SENT or it has been published on.
      ensures msg.body.Alert? && acked ==>
                HasStatus(notifier.deliveries.rows, msg.body.pair, Sent) || |published| == |old(published)| + 1
      // Without an implementation it ends at once, whatever its attempts.
      ensures msg.body.Alert? && msg.body.Chan() !in notifier.senders ==>
                && (w.settleFailed.Lands() ==> HasStatus(notifier.deliveries.rows, msg.body.pair, Failed))
                && published == old(published)
                     + (if w.settleFailed.Answered? && w.publish.Lands()
                        then [Publication(msg.body.Chan(), R.Parked, msg.attempts)] else [])
    {
      if msg.body.Garbage? {
        acked := Republish(Publication(msg.body.channel, R.Parked, msg.attempts), w.publish);
        return;
      }
      var result := notifier.Dispatch(msg.body.pair, w);
      if result.Throws? {
        acked := HandleFailure(msg, result.permanent, w);
        return;
      }
      acked := true;
    }
  }

  // ---- A lone handler is a run of the protocol ----

  function PcAfter(cfg: D.Config, h: D.Handler, result: DispatchResult): D.Pc {
    if result.Throws? then D.AfterFailure(cfg, h, result.permanent) else D.Ack(D.AckReason.Delivered)
  }

  ghost predicate OnlyMoved(s: D.State, s': D.State, h: nat, pc: D.Pc)
    requires h in s.handlers
  {
    && s'.handlers == s.handlers[h := s.handlers[h].(pc := pc)]
    && s'.copies == s.copies && s'.next == s.next && s'.clock == s.clock
  }

  lemma SettleIsARun(cfg: D.Config, s: D.State, h: nat, outcome: Outcome, wipes: bool) returns (s': D.State)
    requires D.Reachable(cfg, s, wipes) && D.AlertAt(s, h) && s.handlers[h].pc.SettleSent?
    ensures D.Reachable(cfg, s', wipes)
    ensures s'.log == if outcome.Lands() then Settled(s.log, s.handlers[h].body.pair, Sent) else s.log
    ensures OnlyMoved(s, s', h, PcAfter(cfg, s.handlers[h], if outcome.Answered? then Delivered else Throws(false)))
  {
    s' := D.Then(cfg, s, D.SettleSentRow(h, outcome), wipes);
    assert s' == D.SettledSent(cfg, s, h, outcome);
  }

  lemma AcceptIsARun(cfg: D.Config, s: D.State, h: nat, w: World, wipes: bool) returns (s': D.State)
    requires D.Reachable(cfg, s, wipes) && D.AlertAt(s, h) && s.handlers[h].pc.Sending? && w.send.Accepts?
    ensures D.Reachable(cfg, s', wipes)
    ensures var d := Sending(s.log, s.handlers[h].body.pair, w);
            s'.log == d.log && OnlyMoved(s, s', h, PcAfter(cfg, s.handlers[h], d.result))
  {
    var mid := D.Then(cfg, s, D.SendOk(h), wipes);
    assert mid == D.SentOk(s, h) && mid.log == s.log;
    assert OnlyMoved(s, mid, h, D.SettleSent(s.handlers[h].pc.claimedAt));
    s' := SettleIsARun(cfg, mid, h, w.settleSent, wipes);
  }

  lemma RejectIsARun(cfg: D.Config, s: D.State, h: nat, w: World, wipes: bool) returns (s': D.State)
    requires D.Reachable(cfg, s, wipes) && D.AlertAt(s, h) && s.handlers[h].pc.Sending? && w.send.Rejects?
    ensures D.Reachable(cfg, s', wipes)
    ensures var d := Sending(s.log, s.handlers[h].body.pair, w);
            s'.log == d.log && OnlyMoved(s, s', h, PcAfter(cfg, s.handlers[h], d.result))
  {
    var mid := D.Then(cfg, s, D.SendFail(h, w.send.permanent), wipes);
    assert mid.log == s.log && OnlyMoved(s, mid, h, D.Release(s.handlers[h].pc.claimedAt, w.send.permanent));
    s' := D.Then(cfg, mid, D.ReleaseRow(h, w.release), wipes);
    assert s' == D.ReleasedRow(cfg, mid, h, w.release);
  }

  lemma SendIsARun(cfg: D.Config, s: D.State, h: nat, w: World, wipes: bool) returns (s': D.State)
    requires D.Reachable(cfg, s, wipes) && D.AlertAt(s, h) && s.handlers[h].pc.Sending?
    ensures D.Reachable(cfg, s', wipes)
    ensures var d := Sending(s.log, s.handlers[h].body.pair, w);
            s'.log == d.log && OnlyMoved(s, s', h, PcAfter(cfg, s.handlers[h], d.result))
  {
    if w.send.Accepts? {
      s' := AcceptIsARun(cfg, s, h, w, wipes);
    } else {
      s' := RejectIsARun(cfg, s, h, w, wipes);
    }
  }

  lemma BeginIsARun(cfg: D.Config, s: D.State, h: nat, wipes: bool) returns (s': D.State)
    requires D.Reachable(cfg, s, wipes) && D.AlertAt(s, h) && s.handlers[h].pc == D.Start
    ensures D.Reachable(cfg, s', wipes) && s'.log == s.log
    ensures OnlyMoved(s, s', h, D.Insert(s.clock, s.clock - CLAIM_LEASE_MS))
  {
    s' := D.Then(cfg, s, D.Begin(h, 0), wipes);
  }

  lemma InsertIsARun(cfg: D.Config, s: D.State, h: nat, now: int, outcome: Outcome, wipes: bool) returns (s': D.State)
    requires D.Reachable(cfg, s, wipes) && D.AlertAt(s, h)
    requires s.handlers[h].pc == D.Insert(now, now - CLAIM_LEASE_MS)
    ensures D.Reachable(cfg, s', wipes)
    ensures var p := s.handlers[h].body.pair;
            && s'.log == (if outcome.Lands() && p !in s.log then Inserted(s.log, p, now) else s.log)
            && OnlyMoved(s, s', h,
                 if !outcome.Answered? then D.AfterFailure(cfg, s.handlers[h], false)
                 else if p !in s.log then D.Sending(now)
                 else D.TakeOver(now, now - CLAIM_LEASE_MS))
  {
    s' := D.Then(cfg, s, D.InsertRow(h, outcome), wipes);
    assert s' == D.InsertedRow(cfg, s, h, outcome);
  }

  lemma TakeOverIsARun(cfg: D.Config, s: D.State, h: nat, now: int, outcome: Outcome, wipes: bool) returns (s': D.State)
    requires D.Reachable(cfg, s, wipes) && D.AlertAt(s, h)
    requires s.handlers[h].pc == D.TakeOver(now, now - CLAIM_LEASE_MS)
    ensures D.Reachable(cfg, s', wipes)
    ensures var p := s.handlers[h].body.pair;
            var hit := Takeable(s.log, p, now - CLAIM_LEASE_MS);
            && s'.log == (if outcome.Lands() && hit then TakenOver(s.log, p, now) else s.log)
            && OnlyMoved(s, s', h,
                 if !outcome.Answered? then D.AfterFailure(cfg, s.handlers[h], false)
                 else if hit then D.Sending(now)
                 else D.ReadBack(now))
  {
    s' := D.Then(cfg, s, D.TakeOverRow(h, outcome), wipes);
    assert s' == D.TakenOverRow(cfg, s, h, outcome);
  }

  lemma ReadIsARun(cfg: D.Config, s: D.State, h: nat, outcome: Outcome, wipes: bool) returns (s': D.State)
    requires D.Reachable(cfg, s, wipes) && D.AlertAt(s, h) && s.handlers[h].pc.ReadBack?
    requires s.handlers[h].body.pair in s.log
    ensures D.Reachable(cfg, s', wipes) && s'.log == s.log
    ensures OnlyMoved(s, s', h,
              if outcome.Answered? && IsSent(s.log, s.handlers[h].body.pair) then D.Ack(D.AckReason.Delivered)
              else D.AfterFailure(cfg, s.handlers[h], false))
  {
    s' := D.Then(cfg, s, D.ReadRow(h, outcome), wipes);
    assert s' == D.ReadRowBack(cfg, s, h, outcome);
  }

  // The three statements of a claim, up to the send or the verdict.
  lemma ClaimIsARun(cfg: D.Config, s: D.State, h: nat, w: World, wipes: bool) returns (s': D.State)
    requires D.Reachable(cfg, s, wipes) && D.AlertAt(s, h) && s.handlers[h].pc == D.Start && w.now == s.clock
    ensures D.Reachable(cfg, s', wipes)
    ensures var p := s.handlers[h].body.pair;
            var claim := ClaimOf(s.log, p, w.now, w.now - CLAIM_LEASE_MS, w.claim);
            && s'.log == claim.log
            && OnlyMoved(s, s', h,
                 if claim.result == Some(Claimed) then D.Sending(w.now)
                 else PcAfter(cfg, s.handlers[h], if claim.result == Some(Duplicate) then Skipped else Throws(false)))
  {
    var p := s.handlers[h].body.pair;
    s' := BeginIsARun(cfg, s, h, wipes);
    s' := InsertIsARun(cfg, s', h, w.now, w.claim.insert, wipes);
    if w.claim.insert.Answered? && p in s.log {
      s' := TakeOverIsARun(cfg, s', h, w.now, w.claim.takeOver, wipes);
      if w.claim.takeOver.Answered? && !Takeable(s.log, p, w.now - CLAIM_LEASE_MS) {
        s' := ReadIsARun(cfg, s', h, w.claim.read, wipes);
      }
    }
  }

  /** Dispatch refines to the protocol: the one-call form leaves the log, and sends the handler where,
      a run of single statements would. */
  lemma DispatchIsARun(cfg: D.Config, s: D.State, h: nat, w: World, wipes: bool) returns (s': D.State)
    requires D.Reachable(cfg, s, wipes) && D.AlertAt(s, h) && s.handlers[h].pc == D.Start && w.now == s.clock
    ensures D.Reachable(cfg, s', wipes)
    ensures var d := DispatchOf(s.log, s.handlers[h].body.pair, true, w);
            s'.log == d.log && OnlyMoved(s, s', h, PcAfter(cfg, s.handlers[h], d.result))
  {
    s' := ClaimIsARun(cfg, s, h, w, wipes);
    if s'.handlers[h].pc.Sending? {
      s' := SendIsARun(cfg, s', h, w, wipes);
    }
  }

  function PlaceOf(kind: R.Kind): D.Place
    requires !kind.Fired?
  {
    if kind.Parked? then D.Dead else D.Retry(kind.attempt)
  }

  // The broker's copies once the handler has published, acked or neither.
  function CopiesAfter(s: D.State, h: nat, out: Processed): map<nat, D.Copy>
    requires h in s.handlers && (out.published.Some? ==> !out.published.value.kind.Fired?)
  {
    var handler := s.handlers[h];
    var more :=
      if out.published.None? then s.copies
      else s.copies[s.next := D.Copy(handler.body, out.published.value.attempts,
                                     PlaceOf(out.published.value.kind), handler.origin)];
    if out.acked then more - {handler.copy} else more
  }

  // The handler holds its copy, on a declared queue.
  ghost predicate Holds(cfg: D.Config, s: D.State, h: nat) {
    && h in s.handlers && s.handlers[h].body.Chan() in cfg.queues
    && s.handlers[h].copy in s.copies && s.handlers[h].copy < s.next
    && s.copies[s.handlers[h].copy].place == D.Unacked(h)
  }

  lemma MoveIsARun(cfg: D.Config, s: D.State, h: nat, pub: Publication, outcome: Outcome, wipes: bool)
    returns (s': D.State)
    requires D.Reachable(cfg, s, wipes) && Holds(cfg, s, h)
    requires || (s.handlers[h].pc == D.Republish && pub.kind == R.Stage(s.handlers[h].attempts + 1)
                 && pub.attempts == s.handlers[h].attempts + 1)
             || (s.handlers[h].pc == D.Park && pub.kind == R.Parked && pub.attempts == s.handlers[h].attempts)
    ensures D.Reachable(cfg, s', wipes) && s'.log == s.log
    ensures s'.handlers == s.handlers - {h} && s'.copies == CopiesAfter(s, h, Moving(s.log, pub, outcome))
  {
    s' := D.Then(cfg, s, if pub.kind.Parked? then D.PublishDead(h, outcome) else D.PublishRetry(h, outcome), wipes);
    if outcome.Answered? {
      s' := D.Then(cfg, s', D.AckCopy(h), wipes);
    }
  }

  lemma FailureIsARun(cfg: D.Config, s: D.State, h: nat, permanent: bool, w: World, wipes: bool)
    returns (s': D.State)
    requires D.Reachable(cfg, s, wipes) && D.AlertAt(s, h) && Holds(cfg, s, h)
    requires s.handlers[h].pc == D.AfterFailure(cfg, s.handlers[h], permanent)
    ensures D.Reachable(cfg, s', wipes)
    ensures var out := FailureOf(s.log, s.handlers[h].body.pair, s.handlers[h].attempts, cfg.stages, permanent, w);
            s'.log == out.log && s'.handlers == s.handlers - {h} && s'.copies == CopiesAfter(s, h, out)
  {
    var p, attempts := s.handlers[h].body.pair, s.handlers[h].attempts;
    if s.handlers[h].pc.Republish? {
      s' := MoveIsARun(cfg, s, h, Publication(p.channel, R.Stage(attempts + 1), attempts + 1), w.publish, wipes);
    } else {
      s' := D.Then(cfg, s, D.SettleFailedRow(h, w.settleFailed), wipes);
      if w.settleFailed.Answered? {
        var t := MoveIsARun(cfg, s', h, Publication(p.channel, R.Parked, attempts), w.publish, wipes);
        assert s'.handlers - {h} == s.handlers - {h};
        s' := t;
      }
    }
  }

  lemma AckIsARun(cfg: D.Config, s: D.State, h: nat, wipes: bool) returns (s': D.State)
    requires D.Reachable(cfg, s, wipes) && Holds(cfg, s, h) && s.handlers[h].pc.Ack?
    ensures D.Reachable(cfg, s', wipes) && s'.log == s.log
    ensures s'.handlers == s.handlers - {h} && s'.copies == s.copies - {s.handlers[h].copy}
  {
    s' := D.Then(cfg, s, D.AckCopy(h), wipes);
  }

  /** The handler as written is a run of the protocol: whatever the database, the broker and the
      channel answer, the log, the acknowledgement and the republished copy (with its header and the
      queue its key leads to) are those of a run, so every theorem about runs speaks about this code. */
  lemma ProcessIsARun(cfg: D.Config, s: D.State, h: nat, w: World, wipes: bool) returns (s': D.State)
    requires D.Reachable(cfg, s, wipes) && Holds(cfg, s, h) && s.handlers[h].pc == D.Start && w.now == s.clock
    ensures D.Reachable(cfg, s', wipes)
    ensures var handler := s.handlers[h];
            var out := ProcessOf(s.log, Message(handler.body, handler.attempts), cfg.stages, true, w);
            s'.log == out.log && s'.handlers == s.handlers - {h} && s'.copies == CopiesAfter(s, h, out)
  {
    var body, attempts := s.handlers[h].body, s.handlers[h].attempts;
    if body.Garbage? {
      s' := D.Then(cfg, s, D.Begin(h, 0), wipes);
      var t := MoveIsARun(cfg, s', h, Publication(body.channel, R.Parked, attempts), w.publish, wipes);
      assert s'.handlers - {h} == s.handlers - {h};
      s' := t;
    } else {
      var d := DispatchOf(s.log, body.pair, true, w);
      var mid := DispatchIsARun(cfg, s, h, w, wipes);
      assert mid.handlers - {h} == s.handlers - {h};
      if d.result.Throws? {
        s' := FailureIsARun(cfg, mid, h, d.result.permanent, w, wipes);
      } else {
        s' := AckIsARun(cfg, mid, h, wipes);
      }
    }
  }
}
