/** Runs that show each hypothesis of the lease theorems is needed, and that the accidents the
    accounting theorem counts do happen. They exist for every retry ladder with at least one stage,
    which is every ladder the consumer can be configured with. */
module LeaseRuns {
  import opened Domain
  import opened DeliveryLog
  import opened Delivery
  import opened Lease

  const P := Pair(1, Email)
  const FREE := Row(Pending, None, [])
  const NOTHING := Tally(0, 0, 0, 0)

  function Claimed(now: int): Row { Row(Pending, Some(now), []) }

  predicate Real(cfg: Config) {
    cfg.stages >= 1 && Email in cfg.queues
  }

  // ---- One handler, up to the point where it holds the claim or is refused ----

  // Copy `c` is in the main queue and nobody is at work.
  ghost predicate Waiting(s: State, c: nat, attempts: nat, log: Table) {
    && s.handlers == map[] && s.log == log && TallyOf(s, P) == NOTHING
    && c in s.copies && c < s.next && s.copies[c].body == Alert(P) && s.copies[c].attempts == attempts
    && s.copies[c].place == Main
  }

  // Takes copy `c` off the queue and starts its dispatch.
  lemma Started(cfg: Config, s: State, c: nat, wipes: bool) returns (s': State, h: nat)
    requires Real(cfg) && Reachable(cfg, s, wipes)
    requires c in s.copies && s.copies[c].body == Alert(P) && s.copies[c].place == Main && s.next !in s.handlers
    ensures Reachable(cfg, s', wipes) && h == s.next && s'.next == s.next + 1
    ensures s'.clock == s.clock && s'.log == s.log && TallyOf(s', P) == TallyOf(s, P)
    ensures s'.handlers == s.handlers[h := Handler(c, Alert(P), s.copies[c].attempts, s.copies[c].origin,
                                                   Insert(s.clock, s.clock - CLAIM_LEASE_MS))]
    ensures s'.copies == s.copies[c := s.copies[c].(place := Unacked(h))]
  {
    h := s.next;
    s' := Then(cfg, s, Deliver(c), wipes);
    s' := Then(cfg, s', Begin(h, 0), wipes);
  }

  ghost predicate OnlyPc(s: State, s': State, h: nat, pc: Pc)
    requires h in s.handlers
  {
    && s'.handlers == s.handlers[h := s.handlers[h].(pc := pc)]
    && s'.clock == s.clock && s'.copies == s.copies && s'.next == s.next && TallyOf(s', P) == TallyOf(s, P)
  }

  lemma Inserts(cfg: Config, s: State, h: nat, wipes: bool) returns (s': State)
    requires Reachable(cfg, s, wipes) && h in s.handlers && s.handlers[h].body == Alert(P)
    requires s.handlers[h].pc == Insert(s.clock, s.clock - CLAIM_LEASE_MS)
    ensures Reachable(cfg, s', wipes)
    ensures if P in s.log then s'.log == s.log && OnlyPc(s, s', h, TakeOver(s.clock, s.clock - CLAIM_LEASE_MS))
            else s'.log == Inserted(s.log, P, s.clock) && OnlyPc(s, s', h, Sending(s.clock))
  {
    s' := Then(cfg, s, InsertRow(h, Answered), wipes);
    assert s' == InsertedRow(cfg, s, h, Answered);
  }

  lemma TakesOver(cfg: Config, s: State, h: nat, wipes: bool) returns (s': State)
    requires Reachable(cfg, s, wipes) && h in s.handlers && s.handlers[h].body == Alert(P)
    requires s.handlers[h].pc == TakeOver(s.clock, s.clock - CLAIM_LEASE_MS)
    ensures Reachable(cfg, s', wipes)
    ensures if Takeable(s.log, P, s.clock - CLAIM_LEASE_MS)
            then s'.log == TakenOver(s.log, P, s.clock) && OnlyPc(s, s', h, Sending(s.clock))
            else s'.log == s.log && OnlyPc(s, s', h, ReadBack(s.clock))
  {
    s' := Then(cfg, s, TakeOverRow(h, Answered), wipes);
    assert s' == TakenOverRow(cfg, s, h, Answered);
  }

  // An alert waiting, and delivered to its first handler, which now holds the claim; the message is
  // requeued behind its back.
  lemma FirstSending(cfg: Config, wipes: bool) returns (s: State)
    requires Real(cfg)
    ensures Reachable(cfg, s, wipes) && s.clock == 0 && s.next == 2 && s.log == map[P := Claimed(0)]
    ensures 0 in s.copies && s.copies[0] == Copy(Alert(P), 0, Main, 0) && TallyOf(s, P) == NOTHING
    ensures s.handlers == map[1 := Handler(0, Alert(P), 0, 0, Sending(0))]
  {
    InitReachable(cfg, 0, wipes);
    s := Then(cfg, Init(0), Inject(Alert(P)), wipes);
    assert s.copies == map[0 := Copy(Alert(P), 0, Main, 0)] && s.next == 1;
    var h;
    s, h := Started(cfg, s, 0, wipes);
    s := Inserts(cfg, s, h, wipes);
    s := Then(cfg, s, Requeue(0), wipes);
  }

  // ---- The lease can be outlived, and can be deleted ----

  lemma SendsBoth(cfg: Config, s: State, g: nat, h: nat) returns (s': State)
    requires Reachable(cfg, s, false) && g != h && TallyOf(s, P) == NOTHING
    requires g in s.handlers && s.handlers[g].body == Alert(P) && s.handlers[g].pc.Sending?
    requires h in s.handlers && s.handlers[h].body == Alert(P) && s.handlers[h].pc.Sending?
    ensures Reachable(cfg, s', false) && Settling(s', g, P) && Settling(s', h, P)
    ensures TallyOf(s', P) == Tally(2, 0, 0, 0)
  {
    s' := Then(cfg, s, SendOk(g), false);
    assert s' == SentOk(s, g);
    s' := Then(cfg, s', SendOk(h), false);
  }

  /** An attempt that outlives its lease: the unacked message is requeued, the second handler takes
      the row over, and both send. */
  lemma OutlivingTheLeaseSendsTwice(cfg: Config) returns (s: State)
    requires Real(cfg)
    ensures Reachable(cfg, s, false)
    ensures exists g, h :: g != h && Settling(s, g, P) && Settling(s, h, P)
    ensures TallyOf(s, P) == Tally(2, 0, 0, 0)
  {
    s := FirstSending(cfg, false);
    s := Then(cfg, s, Tick(CLAIM_LEASE_MS + 1), false);
    var h;
    s, h := Started(cfg, s, 0, false);
    s := Inserts(cfg, s, h, false);
    s := TakesOver(cfg, s, h, false);
    s := SendsBoth(cfg, s, 1, h);
  }

  /** A deleted history row takes its claim with it: two handlers hold the pair at once, well
      inside the lease. */
  lemma DeletedRowLosesTheClaim(cfg: Config) returns (s: State)
    requires Real(cfg)
    ensures Reachable(cfg, s, true) && s.clock == 0
    ensures exists g, h :: g != h && Holds(s, g, P) && Holds(s, h, P)
  {
    s := FirstSending(cfg, true);
    s := Then(cfg, s, Wipe(P), true);
    var h;
    s, h := Started(cfg, s, 0, true);
    s := Inserts(cfg, s, h, true);
    assert Holds(s, 1, P) && Holds(s, h, P);
  }

  // ---- A late FAILED overwrites SENT ----

  // How long a message has waited once it is back from stage `k`.
  function Waited(delays: seq<nat>, k: nat): nat
    requires k <= |delays|
  {
    if k == 0 then 0 else Waited(delays, k - 1) + delays[k - 1]
  }

  // A relay that lost its mark publishes the alert again: two messages, 0 and 1. Message 0 is on its
  // way up the ladder as copy `c` with `k` attempts behind it; message 1 has not been touched.
  ghost predicate Climbing(s: State, c: nat, k: nat, clock: int) {
    && s.clock == clock && Waiting(s, c, k, if k == 0 then map[] else map[P := FREE])
    && c != 1 && 1 in s.copies && 1 < s.next && s.copies[1] == Copy(Alert(P), 0, Main, 1)
  }

  lemma TwoMessages(cfg: Config) returns (s: State)
    requires Real(cfg)
    ensures Reachable(cfg, s, false) && Climbing(s, 0, 0, 0)
  {
    InitReachable(cfg, 0, false);
    s := Then(cfg, Init(0), Inject(Alert(P)), false);
    assert s.copies == map[0 := Copy(Alert(P), 0, Main, 0)] && s.next == 1;
    s := Then(cfg, s, Inject(Alert(P)), false);
  }

  // Handler `h` holds the claim, at the attempt `k`.
  lemma Claims(cfg: Config, s: State, c: nat, k: nat) returns (s': State, h: nat)
    requires Real(cfg) && Reachable(cfg, s, false)
    requires Waiting(s, c, k, map[]) || Waiting(s, c, k, map[P := FREE])
    ensures Reachable(cfg, s', false) && h == s.next && s'.next == s.next + 1 && s'.clock == s.clock
    ensures s'.log == map[P := Claimed(s.clock)] && TallyOf(s', P) == NOTHING
    ensures s'.handlers == map[h := Handler(c, Alert(P), k, s.copies[c].origin, Sending(s.clock))]
    ensures s'.copies == s.copies[c := s.copies[c].(place := Unacked(h))]
  {
    s', h := Started(cfg, s, c, false);
    s' := Inserts(cfg, s', h, false);
    if P in s.log {
      s' := TakesOver(cfg, s', h, false);
    }
  }

  // The send fails for the moment; the claim is handed back.
  lemma FailsAndReleases(cfg: Config, s: State, h: nat) returns (s': State)
    requires Reachable(cfg, s, false) && h in s.handlers && s.handlers[h].body == Alert(P)
    requires s.handlers[h].pc.Sending? && s.log == map[P := Claimed(s.clock)] && s.handlers[h].attempts < cfg.stages
    ensures Reachable(cfg, s', false) && s'.log == map[P := FREE] && OnlyPc(s, s', h, Republish)
  {
    s' := Then(cfg, s, SendFail(h, false), false);
    s' := Then(cfg, s', ReleaseRow(h, Answered), false);
  }

  lemma Republishes(cfg: Config, s: State, h: nat) returns (s': State)
    requires Real(cfg) && Reachable(cfg, s, false) && h in s.handlers && s.handlers[h].body == Alert(P)
    requires s.handlers == map[h := s.handlers[h]] && s.handlers[h].pc == Republish
    requires s.handlers[h].copy in s.copies && s.copies[s.handlers[h].copy].place == Unacked(h)
    requires s.handlers[h].copy != s.next
    ensures Reachable(cfg, s', false) && s'.clock == s.clock && s'.log == s.log && s'.next == s.next + 1
    ensures s'.handlers == map[] && TallyOf(s', P) == TallyOf(s, P)
    ensures var stage := s.handlers[h].attempts + 1;
            s'.copies == s.copies[s.next := Copy(Alert(P), stage, Retry(stage), s.handlers[h].origin)]
                         - {s.handlers[h].copy}
  {
    s' := Then(cfg, s, PublishRetry(h, Answered), false);
    s' := Then(cfg, s', AckCopy(h), false);
  }

  // The stage holds the message for its delay and hands it back to the main queue.
  lemma WaitsOut(cfg: Config, s: State, c: nat, delay: nat) returns (s': State)
    requires Reachable(cfg, s, false) && c in s.copies && s.copies[c].place.Retry?
    ensures Reachable(cfg, s', false) && s'.clock == s.clock + delay && s'.log == s.log && s'.next == s.next
    ensures s'.handlers == s.handlers && TallyOf(s', P) == TallyOf(s, P)
    ensures s'.copies == s.copies[c := s.copies[c].(place := Main)]
  {
    s' := Then(cfg, s, Tick(delay), false);
    s' := Then(cfg, s', ExpireRetry(c), false);
  }

  lemma OneRung(cfg: Config, s: State, c: nat, k: nat, delay: nat) returns (s': State, c': nat)
    requires Real(cfg) && Reachable(cfg, s, false) && Climbing(s, c, k, s.clock) && k < cfg.stages
    ensures Reachable(cfg, s', false) && Climbing(s', c', k + 1, s.clock + delay)
  {
    var h;
    s', h := Claims(cfg, s, c, k);
    s' := FailsAndReleases(cfg, s', h);
    c' := s'.next;
    s' := Republishes(cfg, s', h);
    s' := WaitsOut(cfg, s', c', delay);
  }

  lemma {:induction false} AllRungs(cfg: Config, delays: seq<nat>, k: nat) returns (s: State, c: nat)
    requires Real(cfg) && k <= cfg.stages == |delays|
    ensures Reachable(cfg, s, false) && Climbing(s, c, k, Waited(delays, k))
  {
    if k == 0 {
      s := TwoMessages(cfg);
      c := 0;
    } else {
      s, c := AllRungs(cfg, delays, k - 1);
      s, c := OneRung(cfg, s, c, k - 1, delays[k - 1]);
    }
  }

  // The other message holds the claim; the one on its last attempt finds the pair in flight.
  lemma LastAttemptRefused(cfg: Config, s: State, h: nat) returns (s': State)
    requires Reachable(cfg, s, false) && h in s.handlers && s.handlers[h].body == Alert(P)
    requires s.handlers[h].pc == Insert(s.clock, s.clock - CLAIM_LEASE_MS) && s.handlers[h].attempts == cfg.stages
    requires s.log == map[P := Claimed(s.clock)]
    ensures Reachable(cfg, s', false) && s'.log == s.log && OnlyPc(s, s', h, SettleFailed)
  {
    s' := Inserts(cfg, s, h, false);
    s' := TakesOver(cfg, s', h, false);
    s' := Then(cfg, s', ReadRow(h, Answered), false);
  }

  lemma SendsAndSettles(cfg: Config, s: State, g: nat) returns (s': State)
    requires Reachable(cfg, s, false) && s.log == map[P := Claimed(s.clock)] && TallyOf(s, P) == NOTHING
    requires g in s.handlers && s.handlers[g].body == Alert(P) && s.handlers[g].pc.Sending?
    ensures Reachable(cfg, s', false) && s'.clock == s.clock
    ensures s'.log == map[P := Claimed(s.clock).(status := Sent)] && TallyOf(s', P) == Tally(1, 1, 0, 0)
    ensures s'.handlers == s.handlers[g := s.handlers[g].(pc := Ack(Delivered))]
  {
    s' := Then(cfg, s, SendOk(g), false);
    assert s' == SentOk(s, g);
    s' := Then(cfg, s', SettleSentRow(g, Answered), false);
  }

  lemma SettlesFailed(cfg: Config, s: State, h: nat) returns (s': State)
    requires Reachable(cfg, s, false) && s.log == map[P := Claimed(s.clock).(status := Sent)]
    requires TallyOf(s, P) == Tally(1, 1, 0, 0)
    requires h in s.handlers && s.handlers[h].body == Alert(P) && s.handlers[h].pc == SettleFailed
    ensures Reachable(cfg, s', false) && s'.clock == s.clock
    ensures s'.log == map[P := Claimed(s.clock).(status := Failed)] && TallyOf(s', P) == Tally(1, 1, 1, 0)
  {
    s' := Then(cfg, s, SettleFailedRow(h, Answered), false);
    assert s' == SettledFailed(cfg, s, h, Answered);
  }

  /** A late FAILED overwrites SENT, on every ladder, although no attempt comes near its lease: an alert
      relayed twice fails its way up to the last attempt, waiting out the delay of every stage, finds
      the pair in flight there because the second message is being sent, and settles FAILED after that
      send has settled SENT. */
  lemma LateFailureOverwritesSent(cfg: Config, delays: seq<nat>) returns (s: State)
    requires Real(cfg) && cfg.stages == |delays|
    ensures Reachable(cfg, s, false) && s.clock == Waited(delays, |delays|)
    ensures P in s.log && s.log[P].status == Failed
    ensures TallyOf(s, P) == Tally(1, 1, 1, 0)
  {
    var c, g, h;
    s, c := AllRungs(cfg, delays, cfg.stages);
    s, g := Claims(cfg, s, 1, 0);
    s, h := Started(cfg, s, c, false);
    s := LastAttemptRefused(cfg, s, h);
    s := SendsAndSettles(cfg, s, g);
    s := SettlesFailed(cfg, s, h);
  }
}
