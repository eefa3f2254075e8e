/** The notifier's delivery protocol, one database statement or one broker operation per step.
    Any number of handlers run interleaved on one shared clock; a handler may crash between any two
    steps, an unacked copy may be requeued at any time (its handler alive or not), and every
    statement or publish may fail with or without having taken effect. */
module Delivery {
  import opened Domain
  import opened DeliveryLog

  // `stages` is the length of the retry ladder; `queues` the channels whose queues are declared.
  datatype Config = Config(stages: nat, queues: set<Channel>, deadMax: nat)

  datatype Body = Alert(pair: Pair) | Garbage(channel: Channel) {
    function Chan(): Channel { if Alert? then pair.channel else channel }
  }

  datatype Place = Main | Retry(stage: nat) | Unacked(handler: nat) | Dead

  // `attempts` is the x-attempts header; `origin` names the injected message a copy goes back to.
  datatype Copy = Copy(body: Body, attempts: nat, place: Place, origin: nat)

  // Why a handler acknowledges: the alert is delivered (or known to be), or it was republished.
  datatype AckReason = Delivered | Moved

  datatype Pc =
    | Start
    | Insert(now: int, cutoff: int)
    | TakeOver(now: int, cutoff: int)
    | ReadBack(now: int)
    | Sending(claimedAt: int)
    | SettleSent(claimedAt: int)
    | Release(claimedAt: int, permanent: bool)
    | SettleFailed
    | Park
    | Republish
    | Ack(reason: AckReason)

  datatype Handler = Handler(copy: nat, body: Body, attempts: nat, origin: nat, pc: Pc)

  // Per pair: sends the channel accepted, SENT settles that landed, FAILED settles that landed on a
  // SENT row, and accepted sends whose SENT settle will never land.
  datatype Tally = Tally(sends: nat, landed: nat, overwritten: nat, lost: nat)

  // Bookkeeping about the run; no step reads it.
  datatype History = History(
    tally: map<Pair, Tally>,
    dropped: set<Pair>,           // alerts shed by a full dead queue
    injected: set<nat>,           // messages handed to the main exchange
    finished: set<nat>,           // messages acknowledged as delivered
    overflowed: set<nat>,         // messages shed by a full dead queue
    dispatched: map<nat, nat>)    // dispatch calls per message

  datatype State = State(
    clock: int,
    log: Table,
    copies: map<nat, Copy>,
    handlers: map<nat, Handler>,
    next: nat,                    // fresh id for copies and handlers
    history: History)

  datatype Step =
    | Tick(elapsed: nat)
    | Inject(body: Body)
    | Deliver(c: nat)
    | Begin(h: nat, lag: nat)
    | InsertRow(h: nat, outcome: Outcome)
    | TakeOverRow(h: nat, outcome: Outcome)
    | ReadRow(h: nat, outcome: Outcome)
    | SendOk(h: nat)
    | SendFail(h: nat, permanent: bool)
    | SettleSentRow(h: nat, outcome: Outcome)
    | ReleaseRow(h: nat, outcome: Outcome)
    | SettleFailedRow(h: nat, outcome: Outcome)
    | PublishRetry(h: nat, outcome: Outcome)
    | PublishDead(h: nat, outcome: Outcome)
    | AckCopy(h: nat)
    | Crash(h: nat)
    | Requeue(c: nat)
    | ExpireRetry(c: nat)
    | Overflow(c: nat)
    | Wipe(p: Pair)

  const NO_HISTORY := History(map[], {}, {}, {}, {}, map[])

  function Init(clock: int): State {
    State(clock, map[], map[], map[], 0, NO_HISTORY)
  }

  function TallyOf(s: State, p: Pair): Tally {
    if p in s.history.tally then s.history.tally[p] else Tally(0, 0, 0, 0)
  }

  function DispatchesOf(s: State, origin: nat): nat {
    if origin in s.history.dispatched then s.history.dispatched[origin] else 0
  }

  // Attempts before parking: the first try plus one per retry stage.
  function MaxAttempts(cfg: Config): nat {
    cfg.stages + 1
  }

  // `handleFailure`: park a permanent failure or the last attempt, else climb one retry stage.
  function AfterFailure(cfg: Config, h: Handler, permanent: bool): Pc {
    if permanent || h.attempts + 1 >= MaxAttempts(cfg) then SettleFailed else Republish
  }

  predicate AlertAt(s: State, h: nat) {
    h in s.handlers && s.handlers[h].body.Alert?
  }

  function DeadOf(s: State, channel: Channel): set<nat> {
    set c | c in s.copies && s.copies[c].place == Dead && s.copies[c].body.Chan() == channel
  }

  predicate Enabled(cfg: Config, s: State, step: Step) {
    match step
    case Tick(_) => true
    case Inject(_) => true
    // Only declared queues exist and have a consumer.
    case Deliver(c) => c in s.copies && s.copies[c].place == Main && s.copies[c].body.Chan() in cfg.queues
    case Begin(h, _) => h in s.handlers && s.handlers[h].pc == Start
    case InsertRow(h, _) => AlertAt(s, h) && s.handlers[h].pc.Insert?
    case TakeOverRow(h, _) => AlertAt(s, h) && s.handlers[h].pc.TakeOver?
    case ReadRow(h, _) => AlertAt(s, h) && s.handlers[h].pc.ReadBack?
    case SendOk(h) => AlertAt(s, h) && s.handlers[h].pc.Sending?
    case SendFail(h, _) => AlertAt(s, h) && s.handlers[h].pc.Sending?
    case SettleSentRow(h, _) => AlertAt(s, h) && s.handlers[h].pc.SettleSent?
    case ReleaseRow(h, _) => AlertAt(s, h) && s.handlers[h].pc.Release?
    case SettleFailedRow(h, _) => AlertAt(s, h) && s.handlers[h].pc.SettleFailed?
    case PublishRetry(h, _) => h in s.handlers && s.handlers[h].pc.Republish?
    case PublishDead(h, _) => h in s.handlers && s.handlers[h].pc.Park?
    case AckCopy(h) => h in s.handlers && s.handlers[h].pc.Ack?
    case Crash(h) => h in s.handlers
    case Requeue(c) => c in s.copies && s.copies[c].place.Unacked?
    case ExpireRetry(c) => c in s.copies && s.copies[c].place.Retry?
    // Drop-head: the oldest parked copy of a channel goes once the queue is over its ceiling.
    case Overflow(c) =>
      && c in s.copies && s.copies[c].place == Dead
      && |DeadOf(s, s.copies[c].body.Chan())| > cfg.deadMax
      && forall d :: d in DeadOf(s, s.copies[c].body.Chan()) ==> c <= d
    case Wipe(_) => true
  }

  function Goto(s: State, h: nat, pc: Pc): State
    requires h in s.handlers
  {
    s.(handlers := s.handlers[h := s.handlers[h].(pc := pc)])
  }

  function End(s: State, h: nat): State {
    s.(handlers := s.handlers - {h})
  }

  function WithTally(s: State, p: Pair, t: Tally): State {
    s.(history := s.history.(tally := s.history.tally[p := t]))
  }

  // A message accepted by the main exchange; one nobody declared a queue for is discarded.
  function Injected(cfg: Config, s: State, body: Body): State {
    if body.Chan() !in cfg.queues then s else
    s.(copies := s.copies[s.next := Copy(body, 0, Main, s.next)],
       next := s.next + 1,
       history := s.history.(injected := s.history.injected + {s.next}))
  }

  function Republished(cfg: Config, s: State, h: nat, attempts: nat, place: Place): State
    requires h in s.handlers
  {
    if s.handlers[h].body.Chan() !in cfg.queues then s else
    s.(copies := s.copies[s.next := Copy(s.handlers[h].body, attempts, place, s.handlers[h].origin)],
       next := s.next + 1)
  }

  function Begun(s: State, h: nat, lag: nat): State
    requires h in s.handlers
  {
    if s.handlers[h].body.Garbage? then Goto(s, h, Park) else
    var o := s.handlers[h].origin;
    Goto(s, h, Insert(s.clock, s.clock - CLAIM_LEASE_MS - lag))
      .(history := s.history.(dispatched := s.history.dispatched[o := DispatchesOf(s, o) + 1]))
  }

  function InsertedRow(cfg: Config, s: State, h: nat, outcome: Outcome): State
    requires Enabled(cfg, s, InsertRow(h, outcome))
  {
    var p := s.handlers[h].body.pair;
    var Insert(now, cutoff) := s.handlers[h].pc;
    var stored := if p !in s.log && outcome.Lands() then s.(log := Inserted(s.log, p, now)) else s;
    if !outcome.Answered? then Goto(stored, h, AfterFailure(cfg, s.handlers[h], false))
    else if p !in s.log then Goto(stored, h, Sending(now))
    else Goto(stored, h, TakeOver(now, cutoff))
  }

  function TakenOverRow(cfg: Config, s: State, h: nat, outcome: Outcome): State
    requires Enabled(cfg, s, TakeOverRow(h, outcome))
  {
    var p := s.handlers[h].body.pair;
    var TakeOver(now, cutoff) := s.handlers[h].pc;
    var hit := Takeable(s.log, p, cutoff);
    var stored := if hit && outcome.Lands() then s.(log := TakenOver(s.log, p, now)) else s;
    if !outcome.Answered? then Goto(stored, h, AfterFailure(cfg, s.handlers[h], false))
    else if hit then Goto(stored, h, Sending(now))
    else Goto(stored, h, ReadBack(now))
  }

  function ReadRowBack(cfg: Config, s: State, h: nat, outcome: Outcome): State
    requires Enabled(cfg, s, ReadRow(h, outcome))
  {
    var p := s.handlers[h].body.pair;
    if !outcome.Answered? then Goto(s, h, AfterFailure(cfg, s.handlers[h], false))
    else if p !in s.log then Goto(s, h, Sending(s.handlers[h].pc.now))
    else if s.log[p].status == Sent then Goto(s, h, Ack(Delivered))
    else Goto(s, h, AfterFailure(cfg, s.handlers[h], false))
  }

  function SentOk(s: State, h: nat): State
    requires AlertAt(s, h) && s.handlers[h].pc.Sending?
  {
    var p := s.handlers[h].body.pair;
    var t := TallyOf(s, p);
    WithTally(Goto(s, h, SettleSent(s.handlers[h].pc.claimedAt)), p, t.(sends := t.sends + 1))
  }

  function SettledSent(cfg: Config, s: State, h: nat, outcome: Outcome): State
    requires Enabled(cfg, s, SettleSentRow(h, outcome))
  {
    var p := s.handlers[h].body.pair;
    var t := TallyOf(s, p);
    var stored :=
      if outcome.Lands() then
        WithTally(s.(log := Settled(s.log, p, Sent)), p, t.(landed := t.landed + 1))
      else
        WithTally(s, p, t.(lost := t.lost + 1));
    Goto(stored, h, if outcome.Answered? then Ack(Delivered) else AfterFailure(cfg, s.handlers[h], false))
  }

  // A failed release is swallowed; the lease then expires on its own.
  function ReleasedRow(cfg: Config, s: State, h: nat, outcome: Outcome): State
    requires Enabled(cfg, s, ReleaseRow(h, outcome))
  {
    var p := s.handlers[h].body.pair;
    var stored := if outcome.Lands() then s.(log := Released(s.log, p)) else s;
    Goto(stored, h, AfterFailure(cfg, s.handlers[h], s.handlers[h].pc.permanent))
  }

  function SettledFailed(cfg: Config, s: State, h: nat, outcome: Outcome): State
    requires Enabled(cfg, s, SettleFailedRow(h, outcome))
  {
    var p := s.handlers[h].body.pair;
    var t := TallyOf(s, p);
    var stored :=
      if !outcome.Lands() then s
      else if IsSent(s.log, p) then
        WithTally(s.(log := Settled(s.log, p, Failed)), p, t.(overwritten := t.overwritten + 1))
      else s.(log := Settled(s.log, p, Failed));
    if outcome.Answered? then Goto(stored, h, Park) else End(stored, h)
  }

  // Publish before ack: a failed publish leaves the original unacked.
  function PublishedOn(cfg: Config, s: State, h: nat, attempts: nat, place: Place, outcome: Outcome): State
    requires h in s.handlers
  {
    var stored := if outcome.Lands() then Republished(cfg, s, h, attempts, place) else s;
    if outcome.Answered? then Goto(stored, h, Ack(Moved)) else End(stored, h)
  }

  // An ack counts only while the broker still regards the copy as this handler's.
  function Acked(s: State, h: nat): State
    requires h in s.handlers && s.handlers[h].pc.Ack?
  {
    var c := s.handlers[h].copy;
    if c in s.copies && s.copies[c].place == Unacked(h) then
      End(s.(copies := s.copies - {c},
             history := if s.handlers[h].pc.reason == Delivered
                        then s.history.(finished := s.history.finished + {s.copies[c].origin})
                        else s.history), h)
    else End(s, h)
  }

  function Overflowed(s: State, c: nat): State
    requires c in s.copies
  {
    var copy := s.copies[c];
    s.(copies := s.copies - {c},
       history := s.history.(
         overflowed := s.history.overflowed + {copy.origin},
         dropped := s.history.dropped + (if copy.body.Alert? then {copy.body.pair} else {})))
  }

  function Apply(cfg: Config, s: State, step: Step): State
    requires Enabled(cfg, s, step)
  {
    match step
    case Tick(elapsed) => s.(clock := s.clock + elapsed)
    case Inject(body) => Injected(cfg, s, body)
    case Deliver(c) =>
      var copy := s.copies[c];
      s.(copies := s.copies[c := copy.(place := Unacked(s.next))],
         handlers := s.handlers[s.next := Handler(c, copy.body, copy.attempts, copy.origin, Start)],
         next := s.next + 1)
    case Begin(h, lag) => Begun(s, h, lag)
    case InsertRow(h, outcome) => InsertedRow(cfg, s, h, outcome)
    case TakeOverRow(h, outcome) => TakenOverRow(cfg, s, h, outcome)
    case ReadRow(h, outcome) => ReadRowBack(cfg, s, h, outcome)
    case SendOk(h) => SentOk(s, h)
    case SendFail(h, permanent) => Goto(s, h, Release(s.handlers[h].pc.claimedAt, permanent))
    case SettleSentRow(h, outcome) => SettledSent(cfg, s, h, outcome)
    case ReleaseRow(h, outcome) => ReleasedRow(cfg, s, h, outcome)
    case SettleFailedRow(h, outcome) => SettledFailed(cfg, s, h, outcome)
    case PublishRetry(h, outcome) =>
      PublishedOn(cfg, s, h, s.handlers[h].attempts + 1, Retry(s.handlers[h].attempts + 1), outcome)
    case PublishDead(h, outcome) =>
      PublishedOn(cfg, s, h, s.handlers[h].attempts, Dead, outcome)
    case AckCopy(h) => Acked(s, h)
    case Crash(h) =>
      // A send accepted but not yet settled can no longer be settled.
      if AlertAt(s, h) && s.handlers[h].pc.SettleSent? then
        var p := s.handlers[h].body.pair;
        var t := TallyOf(s, p);
        End(WithTally(s, p, t.(lost := t.lost + 1)), h)
      else End(s, h)
    case Requeue(c) => s.(copies := s.copies[c := s.copies[c].(place := Main)])
    case ExpireRetry(c) => s.(copies := s.copies[c := s.copies[c].(place := Main)])
    case Overflow(c) => Overflowed(s, c)
    case Wipe(p) => s.(log := s.log - {p})
  }

  /** A behaviour: states linked by enabled steps, from an empty system. */
  ghost predicate Behaviour(cfg: Config, states: seq<State>, steps: seq<Step>) {
    && |states| == |steps| + 1
    && states[0] == Init(states[0].clock)
    && forall i :: 0 <= i < |steps| ==> Linked(cfg, states[i], steps[i], states[i + 1])
  }

  ghost predicate Linked(cfg: Config, s: State, step: Step, s': State) {
    Enabled(cfg, s, step) && s' == Apply(cfg, s, step)
  }

  ghost predicate NoWipes(steps: seq<Step>) {
    forall i :: 0 <= i < |steps| ==> !steps[i].Wipe?
  }

  /** Some behaviour ends in `s`; `wipes` says whether it may delete history rows. */
  ghost predicate Reachable(cfg: Config, s: State, wipes: bool) {
    exists states: seq<State>, steps: seq<Step> ::
      Behaviour(cfg, states, steps) && states[|steps|] == s && (wipes || NoWipes(steps))
  }

  lemma InitReachable(cfg: Config, clock: int, wipes: bool)
    ensures Reachable(cfg, Init(clock), wipes)
  {
    var states, steps: seq<Step> := [Init(clock)], [];
    assert Behaviour(cfg, states, steps) && states[|steps|] == Init(clock) && NoWipes(steps);
  }

  // Extends a run by one step; used to write concrete runs down.
  lemma Then(cfg: Config, s: State, step: Step, wipes: bool) returns (s': State)
    requires Reachable(cfg, s, wipes) && Enabled(cfg, s, step) && (wipes || !step.Wipe?)
    ensures s' == Apply(cfg, s, step) && Reachable(cfg, s', wipes)
  {
    s' := Apply(cfg, s, step);
    var states: seq<State>, steps: seq<Step> :|
      Behaviour(cfg, states, steps) && states[|steps|] == s && (wipes || NoWipes(steps));
    var states', steps' := states + [s'], steps + [step];
    forall i | 0 <= i < |steps'| ensures Linked(cfg, states'[i], steps'[i], states'[i + 1]) {
      if i < |steps| { assert Linked(cfg, states[i], steps[i], states[i + 1]); }
    }
    assert Behaviour(cfg, states', steps') && states'[|steps'|] == s';
  }
}
