/** From a committed firing to the channel: the outbox and the delivery protocol side by side, joined
    where a relay's publish enters the main exchange. */
module Pipeline {
  import opened Domain
  import O = Outbox
  import D = Delivery
  import C = Coverage

  // `limit` is the relay's batch size.
  datatype Config = Config(limit: nat, broker: D.Config)

  datatype State = State(outbox: O.State, delivery: D.State)

  // A relay's publish is one step of both sides. The delivery side also takes injections from
  // elsewhere: test sends, replays of parked messages and bodies that do not parse.
  datatype Step =
    | Stage(outboxStep: O.Step)
    | Notify(deliveryStep: D.Step)
    | RelayPublish(r: nat, outcome: Outcome)

  ghost predicate Enabled(cfg: Config, s: State, step: Step) {
    match step
    case Stage(o) => !o.Publish? && O.Enabled(cfg.limit, s.outbox, o)
    case Notify(d) => D.Enabled(cfg.broker, s.delivery, d)
    case RelayPublish(r, outcome) => O.Enabled(cfg.limit, s.outbox, O.Publish(r, outcome))
  }

  ghost function Apply(cfg: Config, s: State, step: Step): State
    requires Enabled(cfg, s, step)
  {
    match step
    case Stage(o) => s.(outbox := O.Apply(cfg.limit, s.outbox, o))
    case Notify(d) => s.(delivery := D.Apply(cfg.broker, s.delivery, d))
    case RelayPublish(r, outcome) =>
      var relay := s.outbox.relays[r];
      State(O.Apply(cfg.limit, s.outbox, O.Publish(r, outcome)),
            if outcome.Lands()
            then D.Apply(cfg.broker, s.delivery, D.Inject(D.Alert(relay.batch[relay.done].pair)))
            else s.delivery)
  }

  ghost predicate Linked(cfg: Config, s: State, step: Step, s': State) {
    Enabled(cfg, s, step) && s' == Apply(cfg, s, step)
  }

  ghost predicate Behaviour(cfg: Config, states: seq<State>, steps: seq<Step>) {
    && |states| == |steps| + 1
    && states[0] == State(O.INIT, D.Init(states[0].delivery.clock))
    && forall i :: 0 <= i < |steps| ==> Linked(cfg, states[i], steps[i], states[i + 1])
  }

  // Whatever the broker accepted from a relay for a declared queue is covered on the other side.
  ghost predicate Inv(cfg: Config, s: State) {
    && O.Inv(s.outbox)
    && C.CoverInv(cfg.broker, s.delivery)
    && forall p :: p in s.outbox.accepted && p.channel in cfg.broker.queues ==> C.Covered(s.delivery, p)
  }

  lemma StepKeeps(cfg: Config, s: State, step: Step)
    requires Inv(cfg, s) && Enabled(cfg, s, step)
    ensures Inv(cfg, Apply(cfg, s, step))
  {
    match step
    case Stage(o) =>
      O.StepKeeps(cfg.limit, s.outbox, o);
      OnlyPublishAccepts(cfg.limit, s.outbox, o);
    case Notify(d) => C.CoverStep(cfg.broker, s.delivery, d);
    case RelayPublish(r, outcome) =>
      O.StepKeeps(cfg.limit, s.outbox, O.Publish(r, outcome));
      if outcome.Lands() {
        var p := s.outbox.relays[r].batch[s.outbox.relays[r].done].pair;
        C.CoverStep(cfg.broker, s.delivery, D.Inject(D.Alert(p)));
        if p.channel in cfg.broker.queues {
          C.InjectCovers(cfg.broker, s.delivery, p);
        }
      }
  }

  lemma OnlyPublishAccepts(limit: nat, s: O.State, step: O.Step)
    requires O.Enabled(limit, s, step) && !step.Publish?
    ensures O.Apply(limit, s, step).accepted == s.accepted
  {
    if step.Commit? {
      StagingAccepts(s, step.event, step.channels, step.now);
    }
  }

  lemma {:induction false} StagingAccepts(s: O.State, event: nat, channels: seq<Channel>, now: int)
    ensures O.StageAll(s, event, channels, now).accepted == s.accepted
    decreases |channels|
  {
    if channels != [] {
      StagingAccepts(O.StageOne(s, Pair(event, channels[0]), now), event, channels[1..], now);
    }
  }

  lemma {:induction false} InvAlways(cfg: Config, states: seq<State>, steps: seq<Step>, i: nat)
    requires Behaviour(cfg, states, steps) && i < |states|
    ensures Inv(cfg, states[i])
  {
    if i > 0 {
      InvAlways(cfg, states, steps, i - 1);
      assert Linked(cfg, states[i - 1], steps[i - 1], states[i]);
      StepKeeps(cfg, states[i - 1], steps[i - 1]);
    }
  }

  /** No alert is lost: at every point of every run, every (event, channel) of a committed firing whose
      queues are declared is pending in the outbox, held by the broker (main, retry, unacked or dead),
      already sent, or was shed by a full dead queue. Crashes, requeues, overlapping relays, ambiguous
      publishes and deleted history rows are all allowed. */
  lemma NoAlertLost(cfg: Config, states: seq<State>, steps: seq<Step>, i: nat, p: Pair)
    requires Behaviour(cfg, states, steps) && i < |states|
    requires p in states[i].outbox.committed && p.channel in cfg.broker.queues
    ensures || O.Pending(states[i].outbox.rows, p)
            || C.InBroker(states[i].delivery, p)
            || D.TallyOf(states[i].delivery, p).sends >= 1
            || p in states[i].delivery.history.dropped
  {
    InvAlways(cfg, states, steps, i);
    O.CommittedIsSafe(states[i].outbox, p);
  }

  /** Declaring the queues first is needed: for a channel nobody declared, a relay's publish is
      accepted and discarded, and marking the row then loses the alert. */
  lemma UndeclaredQueueLosesTheAlert(cfg: Config, p: Pair) returns (states: seq<State>, steps: seq<Step>)
    requires cfg.limit >= 1 && p.channel !in cfg.broker.queues
    ensures Behaviour(cfg, states, steps)
    ensures var s := states[|steps|];
            && p in s.outbox.committed
            && !O.Pending(s.outbox.rows, p) && !C.Covered(s.delivery, p)
  {
    var d := D.Init(0);
    var o := OutboxRun(cfg.limit, p);
    steps := [Stage(O.Commit(p.event, [p.channel], 0)), Stage(O.Start(0, [O.Item(0, p)])), RelayPublish(0, Answered),
              Stage(O.Mark(0, 0, Answered))];
    states := [State(o[0], d), State(o[1], d), State(o[2], d), State(o[3], d), State(o[4], d)];
    assert Linked(cfg, states[0], steps[0], states[1]) && Linked(cfg, states[1], steps[1], states[2]);
    assert Linked(cfg, states[2], steps[2], states[3]) && Linked(cfg, states[3], steps[3], states[4]);
  }

  // The outbox's side of it: commit, read, publish, mark.
  lemma OutboxRun(limit: nat, p: Pair) returns (o: seq<O.State>)
    requires limit >= 1
    ensures |o| == 5 && o[0] == O.INIT && o[4].committed == {p} && !O.Pending(o[4].rows, p)
    ensures O.Linked(limit, o[0], O.Commit(p.event, [p.channel], 0), o[1])
    ensures O.Linked(limit, o[1], O.Start(0, [O.Item(0, p)]), o[2])
    ensures O.Linked(limit, o[2], O.Publish(0, Answered), o[3])
    ensures O.Linked(limit, o[3], O.Mark(0, 0, Answered), o[4])
    ensures o[2].relays == map[0 := O.Relay([O.Item(0, p)], 0, false)]
  {
    var item := O.Item(0, p);
    var o1 := O.StageOne(O.INIT, p, 0);
    assert o1.rows == map[0 := O.OutRow(p, 0, None)];
    assert O.StageAll(o1, p.event, [], 0) == o1 && [p.channel][1..] == [];
    var o2 := O.Apply(limit, o1, O.Start(0, [item]));
    var o3 := O.Apply(limit, o2, O.Publish(0, Answered));
    var o4 := O.Apply(limit, o3, O.Mark(0, 0, Answered));
    assert O.InPrefix([item], 1, 0) by { assert [item][0].id == 0; }
    assert o4.rows == map[0 := O.OutRow(p, 0, Some(0))];
    o := [O.INIT, o1, o2, o3, o4];
  }

  // The alert can be found at every point of the run.
  ghost predicate FoundThroughout(states: seq<State>, p: Pair) {
    forall i :: 0 <= i < |states| && p in states[i].outbox.committed ==>
      O.Pending(states[i].outbox.rows, p) || C.Covered(states[i].delivery, p)
  }

  /** Exactly which alerts cannot be lost: those whose channel has its queues declared. */
  lemma NeverLostIff(cfg: Config, p: Pair)
    requires cfg.limit >= 1
    ensures (forall states: seq<State>, steps: seq<Step> ::
               Behaviour(cfg, states, steps) ==> FoundThroughout(states, p))
            <==> p.channel in cfg.broker.queues
  {
    if p.channel in cfg.broker.queues {
      forall states: seq<State>, steps: seq<Step> | Behaviour(cfg, states, steps) ensures FoundThroughout(states, p) {
        forall i | 0 <= i < |states| && p in states[i].outbox.committed
          ensures O.Pending(states[i].outbox.rows, p) || C.Covered(states[i].delivery, p)
        {
          NoAlertLost(cfg, states, steps, i, p);
        }
      }
    } else {
      var states, steps := UndeclaredQueueLosesTheAlert(cfg, p);
      assert !FoundThroughout(states, p);
    }
  }
}
