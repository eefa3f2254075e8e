/** The transactional outbox: a firing stages one row per channel in the transaction that records it,
    and relays hand the rows to the broker, marking them only afterwards. The relay lock is never
    renewed, so any number of relays may overlap; each may crash between any two steps, and a publish
    or a mark may fail with or without having taken effect. */
module Outbox {
  import opened Domain

  datatype OutRow = OutRow(pair: Pair, createdAt: int, publishedAt: Option<int>)

  type RowTable = map<nat, OutRow>

  // What a relay read: the row's id and the message it holds.
  datatype Item = Item(id: nat, pair: Pair)

  // The rows a relay read, how many of them the broker has accepted, and whether one failed.
  datatype Relay = Relay(batch: seq<Item>, done: nat, stopped: bool)

  // `committed`, `accepted`, `relayed` and `staged` record the run: firings committed, messages the
  // broker accepted from a relay, the ids of the rows it accepted them for, and every row ever staged.
  datatype State = State(
    rows: RowTable,
    relays: map<nat, Relay>,
    next: nat,
    committed: set<Pair>,
    accepted: set<Pair>,
    relayed: set<nat>,
    staged: map<nat, Pair>)

  datatype Step =
    | Commit(event: nat, channels: seq<Channel>, now: int)
    | Start(r: nat, batch: seq<Item>)
    | Publish(r: nat, outcome: Outcome)
    | Mark(r: nat, now: int, outcome: Outcome)
    | Crash(r: nat)
    | Prune(before: int)

  const INIT := State(map[], map[], 0, {}, {}, {}, map[])

  ghost predicate HasRow(rows: RowTable, p: Pair) {
    exists i :: i in rows && rows[i].pair == p
  }

  ghost predicate Pending(rows: RowTable, p: Pair) {
    exists i :: i in rows && rows[i].pair == p && rows[i].publishedAt.None?
  }

  // One row per (event, routing key): the unique index skips a pair that already has one.
  ghost function StageOne(s: State, p: Pair, now: int): State {
    var recorded := s.(committed := s.committed + {p});
    if HasRow(s.rows, p) then recorded
    else recorded.(rows := s.rows[s.next := OutRow(p, now, None)],
                   staged := s.staged[s.next := p],
                   next := s.next + 1)
  }

  ghost function StageAll(s: State, event: nat, channels: seq<Channel>, now: int): State
    decreases |channels|
  {
    if channels == [] then s
    else StageAll(StageOne(s, Pair(event, channels[0]), now), event, channels[1..], now)
  }

  /** The oldest-first read: at most `limit` pending rows in `createdAt` order, and no pending row
      left behind is older than one that was taken. */
  ghost predicate OldestPending(rows: RowTable, batch: seq<Item>, limit: nat) {
    && |batch| <= limit
    && (forall k :: 0 <= k < |batch| ==> IsPendingItem(rows, batch[k]))
    && (forall j, k :: 0 <= j < k < |batch| ==>
          batch[j].id != batch[k].id && rows[batch[j].id].createdAt <= rows[batch[k].id].createdAt)
    && (forall i :: i in rows && rows[i].publishedAt.None? && Item(i, rows[i].pair) !in batch ==>
          |batch| == limit && forall k :: 0 <= k < |batch| ==> rows[batch[k].id].createdAt <= rows[i].createdAt)
  }

  predicate IsPendingItem(rows: RowTable, item: Item) {
    item.id in rows && rows[item.id].pair == item.pair && rows[item.id].publishedAt.None?
  }

  ghost predicate Enabled(limit: nat, s: State, step: Step) {
    match step
    case Commit(_, _, _) => true
    case Start(r, batch) => r !in s.relays && OldestPending(s.rows, batch, limit)
    case Publish(r, _) => r in s.relays && !s.relays[r].stopped && s.relays[r].done < |s.relays[r].batch|
    case Mark(r, _, _) =>
      r in s.relays && (s.relays[r].stopped || s.relays[r].done >= |s.relays[r].batch|)
    case Crash(r) => r in s.relays
    case Prune(_) => true
  }

  predicate InPrefix(items: seq<Item>, done: nat, id: nat) {
    exists k :: 0 <= k < |items| && k < done && items[k].id == id
  }

  function Marked(rows: RowTable, items: seq<Item>, done: nat, now: int): RowTable {
    map i | i in rows ::
      if InPrefix(items, done, i) then rows[i].(publishedAt := Some(now)) else rows[i]
  }

  function Pruned(rows: RowTable, before: int): RowTable {
    map i | i in rows && !(rows[i].publishedAt.Some? && rows[i].publishedAt.value < before) :: rows[i]
  }

  ghost function Apply(limit: nat, s: State, step: Step): State
    requires Enabled(limit, s, step)
  {
    match step
    case Commit(event, channels, now) => StageAll(s, event, channels, now)
    case Start(r, batch) => s.(relays := s.relays[r := Relay(batch, 0, false)])
    case Publish(r, outcome) =>
      var relay := s.relays[r];
      s.(accepted := if outcome.Lands() then s.accepted + {relay.batch[relay.done].pair} else s.accepted,
         relayed := if outcome.Lands() then s.relayed + {relay.batch[relay.done].id} else s.relayed,
         relays := s.relays[r := if outcome.Answered? then relay.(done := relay.done + 1)
                                 else relay.(stopped := true)])
    case Mark(r, now, outcome) =>
      var relay := s.relays[r];
      s.(rows := if outcome.Lands() then Marked(s.rows, relay.batch, relay.done, now) else s.rows,
         relays := s.relays - {r})
    case Crash(r) => s.(relays := s.relays - {r})
    case Prune(before) => s.(rows := Pruned(s.rows, before))
  }

  // ---- What every step keeps ----

  ghost predicate RowsOk(s: State) {
    && (forall i :: i in s.staged ==> i < s.next && s.staged[i] in s.committed)
    && (forall i :: i in s.rows ==> i in s.staged && s.rows[i].pair == s.staged[i])
    && (forall i, j :: i in s.rows && j in s.rows && s.rows[i].pair == s.rows[j].pair ==> i == j)
  }

  // A row ever staged is still there, unpublished, or the broker accepted a message for it.
  ghost predicate RowSafe(s: State, i: nat) {
    i in s.relayed || (i in s.rows && s.rows[i].publishedAt.None?)
  }

  ghost predicate RelayedOk(s: State) {
    && (forall i :: i in s.relayed ==> i in s.staged && s.staged[i] in s.accepted)
    && (forall i :: i in s.staged ==> RowSafe(s, i))
    && (forall i :: i in s.rows && s.rows[i].publishedAt.Some? ==> i in s.relayed)
  }

  ghost predicate RelayOk(s: State, relay: Relay) {
    forall k :: 0 <= k < |relay.batch| ==>
      && relay.batch[k].id in s.staged && s.staged[relay.batch[k].id] == relay.batch[k].pair
      && (k < relay.done ==> relay.batch[k].id in s.relayed)
  }

  ghost predicate Inv(s: State) {
    && RowsOk(s) && RelayedOk(s)
    && s.accepted <= s.committed
    && (forall r :: r in s.relays ==> RelayOk(s, s.relays[r]))
    && (forall p :: p in s.committed ==> Staged(s, p))
  }

  ghost predicate Staged(s: State, p: Pair) {
    exists i :: i in s.staged && s.staged[i] == p
  }

  lemma CommittedIsSafe(s: State, p: Pair)
    requires Inv(s) && p in s.committed
    ensures Pending(s.rows, p) || p in s.accepted
  {
    var i :| i in s.staged && s.staged[i] == p;
    assert RowSafe(s, i);
  }

  lemma StageOneKeeps(s: State, p: Pair, now: int)
    requires Inv(s)
    ensures Inv(StageOne(s, p, now))
  {
    var s' := StageOne(s, p, now);
    if HasRow(s.rows, p) {
      var i :| i in s.rows && s.rows[i].pair == p;
      assert s.staged[i] in s.committed && s' == s;
    } else {
      StageNewKeeps(s, s', p, now);
    }
  }

  lemma StageNewRows(s: State, s': State, p: Pair, now: int)
    requires Inv(s) && !HasRow(s.rows, p) && s' == StageOne(s, p, now)
    ensures RowsOk(s') && RelayedOk(s')
  {
    forall i | i in s'.staged ensures RowSafe(s', i) { assert i in s.staged ==> RowSafe(s, i); }
  }

  lemma StageNewKeeps(s: State, s': State, p: Pair, now: int)
    requires Inv(s) && !HasRow(s.rows, p) && s' == StageOne(s, p, now)
    ensures Inv(s')
  {
    StageNewRows(s, s', p, now);
    forall r | r in s'.relays ensures RelayOk(s', s'.relays[r]) { assert RelayOk(s, s.relays[r]); }
    forall q | q in s'.committed ensures Staged(s', q) {
      if q in s.committed {
        var j :| j in s.staged && s.staged[j] == q;
        assert j in s'.staged && s'.staged[j] == q;
      } else {
        assert s.next in s'.staged;
      }
    }
  }

  lemma {:induction false} StageAllKeeps(s: State, event: nat, channels: seq<Channel>, now: int)
    requires Inv(s)
    ensures Inv(StageAll(s, event, channels, now))
    decreases |channels|
  {
    if channels != [] {
      var p := Pair(event, channels[0]);
      StageOneKeeps(s, p, now);
      StageAllKeeps(StageOne(s, p, now), event, channels[1..], now);
    }
  }

  lemma MarkRows(s: State, s': State, relay: Relay, now: int)
    requires Inv(s) && RelayOk(s, relay) && s'.rows == Marked(s.rows, relay.batch, relay.done, now)
    requires s'.staged == s.staged && s'.relayed == s.relayed && s'.accepted == s.accepted
    requires s'.committed == s.committed && s'.next == s.next
    ensures RowsOk(s') && RelayedOk(s')
  {
    forall i | InPrefix(relay.batch, relay.done, i) ensures i in s.relayed {
      var k :| 0 <= k < |relay.batch| && k < relay.done && relay.batch[k].id == i;
    }
    forall i | i in s'.staged ensures RowSafe(s', i) { assert RowSafe(s, i); }
  }

  lemma MarkKeeps(limit: nat, s: State, r: nat, now: int, outcome: Outcome)
    requires Inv(s) && Enabled(limit, s, Mark(r, now, outcome))
    ensures Inv(Apply(limit, s, Mark(r, now, outcome)))
  {
    var s' := Apply(limit, s, Mark(r, now, outcome));
    if outcome.Lands() {
      MarkRows(s, s', s.relays[r], now);
    } else {
      forall i | i in s'.staged ensures RowSafe(s', i) { assert RowSafe(s, i); }
    }
    Recorded(s, s');
  }

  // The staging record is as before; relays keep their batches.
  lemma Recorded(s: State, s': State)
    requires Inv(s) && s'.staged == s.staged && s'.committed == s.committed && s.relayed <= s'.relayed
    requires forall q :: q in s'.relays ==> q in s.relays && s'.relays[q] == s.relays[q]
    ensures forall q :: q in s'.relays ==> RelayOk(s', s'.relays[q])
    ensures forall p :: p in s'.committed ==> Staged(s', p)
  {
    forall q | q in s'.relays ensures RelayOk(s', s'.relays[q]) { assert RelayOk(s, s.relays[q]); }
    forall p | p in s'.committed ensures Staged(s', p) { assert Staged(s, p); }
  }

  lemma PruneKeeps(s: State, before: int)
    requires Inv(s)
    ensures Inv(s.(rows := Pruned(s.rows, before)))
  {
    var s' := s.(rows := Pruned(s.rows, before));
    forall i | i in s'.staged ensures RowSafe(s', i) { assert RowSafe(s, i); }
    Recorded(s, s');
  }

  lemma PublishKeeps(limit: nat, s: State, r: nat, outcome: Outcome)
    requires Inv(s) && Enabled(limit, s, Publish(r, outcome))
    ensures Inv(Apply(limit, s, Publish(r, outcome)))
  {
    var s' := Apply(limit, s, Publish(r, outcome));
    assert RelayOk(s, s.relays[r]);
    forall i | i in s'.staged ensures RowSafe(s', i) { assert RowSafe(s, i); }
    forall q | q in s'.relays ensures RelayOk(s', s'.relays[q]) { assert RelayOk(s, s.relays[q]); }
    forall p | p in s'.committed ensures Staged(s', p) { assert Staged(s, p); }
  }

  lemma StartKeeps(limit: nat, s: State, r: nat, batch: seq<Item>)
    requires Inv(s) && Enabled(limit, s, Start(r, batch))
    ensures Inv(Apply(limit, s, Start(r, batch)))
  {
    var s' := Apply(limit, s, Start(r, batch));
    forall i | i in s'.staged ensures RowSafe(s', i) { assert RowSafe(s, i); }
    forall q | q in s'.relays ensures RelayOk(s', s'.relays[q]) {
      if q != r { assert RelayOk(s, s.relays[q]); }
    }
    forall p | p in s'.committed ensures Staged(s', p) { assert Staged(s, p); }
  }

  lemma StepKeeps(limit: nat, s: State, step: Step)
    requires Inv(s) && Enabled(limit, s, step)
    ensures Inv(Apply(limit, s, step))
  {
    var s' := Apply(limit, s, step);
    match step
    case Commit(event, channels, now) => StageAllKeeps(s, event, channels, now);
    case Start(r, batch) => StartKeeps(limit, s, r, batch);
    case Publish(r, outcome) => PublishKeeps(limit, s, r, outcome);
    case Mark(r, now, outcome) => MarkKeeps(limit, s, r, now, outcome);
    case Crash(r) =>
      forall i | i in s'.staged ensures RowSafe(s', i) { assert RowSafe(s, i); }
      Recorded(s, s');
    case Prune(before) => PruneKeeps(s, before);
  }

  ghost predicate Linked(limit: nat, s: State, step: Step, s': State) {
    Enabled(limit, s, step) && s' == Apply(limit, s, step)
  }

  ghost predicate Behaviour(limit: nat, states: seq<State>, steps: seq<Step>) {
    && |states| == |steps| + 1 && states[0] == INIT
    && forall i :: 0 <= i < |steps| ==> Linked(limit, states[i], steps[i], states[i + 1])
  }

  lemma {:induction false} InvAlways(limit: nat, states: seq<State>, steps: seq<Step>, i: nat)
    requires Behaviour(limit, states, steps) && i < |states|
    ensures Inv(states[i])
  {
    if i > 0 {
      InvAlways(limit, states, steps, i - 1);
      assert Linked(limit, states[i - 1], steps[i - 1], states[i]);
      StepKeeps(limit, states[i - 1], steps[i - 1]);
    }
  }

  // ---- Staged exactly once ----

  ghost predicate StagedOnce(s: State) {
    forall i, j :: i in s.staged && j in s.staged && s.staged[i] == s.staged[j] ==> i == j
  }

  // A commit repeated after its relayed row was pruned: the unique index no longer remembers it.
  ghost predicate Forgotten(s: State, p: Pair) {
    Staged(s, p) && !HasRow(s.rows, p)
  }

  ghost predicate RestagesPruned(s: State, event: nat, channels: seq<Channel>) {
    exists c :: c in channels && Forgotten(s, Pair(event, c))
  }

  lemma StageOneStays(s: State, p: Pair, now: int)
    requires Inv(s)
    ensures StagedOnce(StageOne(s, p, now)) <==> StagedOnce(s) && !Forgotten(s, p)
  {
    var s' := StageOne(s, p, now);
    if !HasRow(s.rows, p) {
      assert s.next in s'.staged;
      forall i | i in s.staged ensures i in s'.staged && s'.staged[i] == s.staged[i] {}
      if Staged(s, p) {
        var j :| j in s.staged && s.staged[j] == p;
        assert s'.staged[j] == s'.staged[s.next] && j != s.next;
      }
    }
  }

  lemma StageOneForgets(s: State, p: Pair, now: int, q: Pair)
    requires Inv(s)
    ensures Forgotten(StageOne(s, p, now), q) <==> Forgotten(s, q) && q != p
  {
    var s' := StageOne(s, p, now);
    if !HasRow(s.rows, p) { assert s.next in s'.rows && s'.rows[s.next].pair == p; }
    if HasRow(s.rows, q) {
      var i :| i in s.rows && s.rows[i].pair == q;
      assert i in s'.rows && s'.rows[i].pair == q;
    }
    if Staged(s, q) {
      var i :| i in s.staged && s.staged[i] == q;
      assert i in s'.staged && s'.staged[i] == q;
    }
  }

  lemma StageOneOnce(s: State, p: Pair, now: int)
    requires Inv(s)
    ensures var s' := StageOne(s, p, now);
            && (StagedOnce(s') <==> StagedOnce(s) && !Forgotten(s, p))
            && forall q :: Forgotten(s', q) <==> Forgotten(s, q) && q != p
  {
    StageOneStays(s, p, now);
    forall q ensures Forgotten(StageOne(s, p, now), q) <==> Forgotten(s, q) && q != p {
      StageOneForgets(s, p, now, q);
    }
  }

  lemma {:induction false} StageAllOnce(s: State, event: nat, channels: seq<Channel>, now: int)
    requires Inv(s)
    ensures StagedOnce(StageAll(s, event, channels, now))
            <==> StagedOnce(s) && !RestagesPruned(s, event, channels)
    decreases |channels|
  {
    if channels != [] {
      var p := Pair(event, channels[0]);
      var s' := StageOne(s, p, now);
      StageOneKeeps(s, p, now);
      StageOneOnce(s, p, now);
      StageAllOnce(s', event, channels[1..], now);
      assert forall c :: c in channels <==> c == channels[0] || c in channels[1..];
      forall c | c in channels && Forgotten(s, Pair(event, c))
        ensures Forgotten(s, p) || (c in channels[1..] && Forgotten(s', Pair(event, c))) {}
    }
  }

  /** A step keeps "one row ever per committed pair" exactly when it is not a commit repeated after
      its row was pruned. */
  lemma StagedOnceIffNotForgotten(limit: nat, s: State, step: Step)
    requires Inv(s) && StagedOnce(s) && Enabled(limit, s, step)
    ensures StagedOnce(Apply(limit, s, step))
            <==> !(step.Commit? && RestagesPruned(s, step.event, step.channels))
  {
    if step.Commit? {
      StageAllOnce(s, step.event, step.channels, step.now);
    }
  }

  lemma {:induction false} OnceAlways(limit: nat, states: seq<State>, steps: seq<Step>, i: nat)
    requires Behaviour(limit, states, steps) && i < |states|
    requires forall k :: 0 <= k < |steps| && steps[k].Commit? ==>
                           !RestagesPruned(states[k], steps[k].event, steps[k].channels)
    ensures StagedOnce(states[i])
  {
    if i > 0 {
      OnceAlways(limit, states, steps, i - 1);
      InvAlways(limit, states, steps, i - 1);
      assert Linked(limit, states[i - 1], steps[i - 1], states[i]);
      StagedOnceIffNotForgotten(limit, states[i - 1], steps[i - 1]);
    }
  }

  /** Outbox exactness, for any number of overlapping relays, crashes and repeated commits: nothing is
      relayed without a committed firing, a row reads published only if the broker accepted the
      message of that very row, every row ever staged is still there unpublished or was accepted,
      live rows are unique per (event, channel), and every committed pair is pending or accepted. If
      no commit is repeated after its row was pruned, exactly one row was ever staged for it. */
  lemma OutboxExactness(limit: nat, states: seq<State>, steps: seq<Step>, i: nat)
    requires Behaviour(limit, states, steps) && i < |states|
    ensures var s := states[i];
            && s.accepted <= s.committed
            && (forall r :: r in s.relayed ==> r in s.staged && s.staged[r] in s.committed)
            && (forall r :: r in s.rows && s.rows[r].publishedAt.Some? ==> r in s.relayed)
            && (forall r :: r in s.staged ==> r in s.relayed || (r in s.rows && s.rows[r].publishedAt.None?))
            && (forall q, r :: q in s.rows && r in s.rows && s.rows[q].pair == s.rows[r].pair ==> q == r)
            && (forall p :: p in s.committed ==> Staged(s, p) && (Pending(s.rows, p) || p in s.accepted))
    ensures (forall k :: 0 <= k < |steps| && steps[k].Commit? ==>
                           !RestagesPruned(states[k], steps[k].event, steps[k].channels))
            ==> StagedOnce(states[i])
  {
    InvAlways(limit, states, steps, i);
    forall r | r in states[i].staged ensures RowSafe(states[i], r) {}
    forall p | p in states[i].committed
      ensures Staged(states[i], p) && (Pending(states[i].rows, p) || p in states[i].accepted)
    {
      CommittedIsSafe(states[i], p);
    }
    if forall k :: 0 <= k < |steps| && steps[k].Commit? ==>
                     !RestagesPruned(states[k], steps[k].event, steps[k].channels) {
      OnceAlways(limit, states, steps, i);
    }
  }

  /** The life of a pending row: no step removes it, and only the mark of a relay whose publish the
      broker accepted turns it published. */
  lemma PendingRowLife(limit: nat, s: State, step: Step, i: nat)
    requires Inv(s) && Enabled(limit, s, step) && i in s.rows && s.rows[i].publishedAt.None?
    ensures var s' := Apply(limit, s, step);
            && i in s'.rows && s'.rows[i].pair == s.rows[i].pair
            && (s'.rows[i].publishedAt.Some? ==> step.Mark? && i in s.relayed)
  {
    match step
    case Commit(event, channels, now) => StageAllKeepsRow(s, event, channels, now, i);
    case Mark(r, now, outcome) =>
      var relay := s.relays[r];
      assert RelayOk(s, relay);
      if InPrefix(relay.batch, relay.done, i) {
        var k :| 0 <= k < |relay.batch| && k < relay.done && relay.batch[k].id == i;
        assert relay.batch[k].pair == s.rows[i].pair;
      }
    case _ =>
  }

  /** A sweep removes exactly the rows published before its cut-off. */
  lemma PruneRemovesIff(limit: nat, s: State, before: int, i: nat)
    requires i in s.rows
    ensures i !in Apply(limit, s, Prune(before)).rows <==>
            s.rows[i].publishedAt.Some? && s.rows[i].publishedAt.value < before
  {}

  lemma {:induction false} StageAllKeepsRow(s: State, event: nat, channels: seq<Channel>, now: int, i: nat)
    requires Inv(s) && i in s.rows
    ensures i in StageAll(s, event, channels, now).rows && StageAll(s, event, channels, now).rows[i] == s.rows[i]
    decreases |channels|
  {
    if channels != [] {
      var p := Pair(event, channels[0]);
      StageOneKeeps(s, p, now);
      StageAllKeepsRow(StageOne(s, p, now), event, channels[1..], now, i);
    }
  }

  // ---- A relay's pass within a run ----

  predicate FailedPublish(step: Step, r: nat) {
    step.Publish? && step.r == r && !step.outcome.Answered?
  }

  // Step `b` started the pass relay `r` is in at `n`.
  ghost predicate PassSince(steps: seq<Step>, b: nat, n: nat, r: nat, relay: Relay) {
    && b < n <= |steps| && steps[b] == Start(r, relay.batch)
    && (forall i :: b < i < n ==> !(steps[i].Start? && steps[i].r == r))
    && relay.done == AcceptedSince(steps, b + 1, n, r)
    && (relay.stopped <==> exists i :: b < i < n && FailedPublish(steps[i], r))
  }

  function AcceptedSince(steps: seq<Step>, b: nat, n: nat, r: nat): nat
    requires n <= |steps|
    decreases n
  {
    if n <= b then 0
    else AcceptedSince(steps, b, n - 1, r)
         + if steps[n - 1].Publish? && steps[n - 1].r == r && steps[n - 1].outcome.Answered? then 1 else 0
  }

  lemma {:induction false} PassHistory(limit: nat, states: seq<State>, steps: seq<Step>, n: nat, r: nat)
    returns (b: nat)
    requires Behaviour(limit, states, steps) && n < |states| && r in states[n].relays
    ensures PassSince(steps, b, n, r, states[n].relays[r])
  {
    b := n - 1;
    var s, step, s' := states[n - 1], steps[n - 1], states[n];
    assert Linked(limit, s, step, s');
    if step.Start? && step.r == r {
      assert AcceptedSince(steps, b + 1, n, r) == 0;
    } else {
      RelayStaysPut(limit, s, step, s', r);
      b := PassHistory(limit, states, steps, n - 1, r);
      if exists i :: b < i < n - 1 && FailedPublish(steps[i], r) {
        var i :| b < i < n - 1 && FailedPublish(steps[i], r);
        assert b < i < n && FailedPublish(steps[i], r);
      }
      if FailedPublish(step, r) { assert b < n - 1 < n && FailedPublish(steps[n - 1], r); }
    }
  }

  lemma RelayStaysPut(limit: nat, s: State, step: Step, s': State, r: nat)
    requires Linked(limit, s, step, s') && r in s'.relays && !(step.Start? && step.r == r)
    ensures r in s.relays && s'.relays[r].batch == s.relays[r].batch
    ensures s'.relays[r].done ==
            s.relays[r].done + if step.Publish? && step.r == r && step.outcome.Answered? then 1 else 0
    ensures s'.relays[r].stopped <==> s.relays[r].stopped || FailedPublish(step, r)
  {
    if step.Commit? { StagingKeepsRelays(s, step.event, step.channels, step.now); }
  }

  lemma {:induction false} StagingKeepsRelays(s: State, event: nat, channels: seq<Channel>, now: int)
    ensures StageAll(s, event, channels, now).relays == s.relays
    decreases |channels|
  {
    if channels != [] { StagingKeepsRelays(StageOne(s, Pair(event, channels[0]), now), event, channels[1..], now); }
  }

  /** A pass within any run: no publish follows a failed one of the same pass, and the mark comes only
      after a failure or the whole batch, covering as many rows as publishes were answered. */
  lemma PassStopsAtFirstFailure(limit: nat, states: seq<State>, steps: seq<Step>, k: nat)
    returns (b: nat)
    requires Behaviour(limit, states, steps) && k < |steps| && (steps[k].Publish? || steps[k].Mark?)
    ensures b < k && steps[b].Start? && steps[b].r == steps[k].r
    ensures forall i :: b < i < k ==> !(steps[i].Start? && steps[i].r == steps[k].r)
    ensures steps[k].Publish? ==> forall i :: b < i < k ==> !FailedPublish(steps[i], steps[k].r)
    ensures steps[k].Mark? ==>
              || AcceptedSince(steps, b + 1, k, steps[k].r) >= |steps[b].batch|
              || exists i :: b < i < k && FailedPublish(steps[i], steps[k].r)
  {
    assert Linked(limit, states[k], steps[k], states[k + 1]);
    b := PassHistory(limit, states, steps, k, steps[k].r);
  }

  // Marked, or already swept.
  ghost predicate DoneWith(s: State, i: nat) {
    i in s.staged && (i in s.rows ==> s.rows[i].publishedAt.Some?)
  }

  lemma {:induction false} StagingKeepsDone(s: State, event: nat, channels: seq<Channel>, now: int, i: nat)
    requires Inv(s) && DoneWith(s, i)
    ensures DoneWith(StageAll(s, event, channels, now), i)
    decreases |channels|
  {
    if channels != [] {
      var p := Pair(event, channels[0]);
      StageOneKeeps(s, p, now);
      StagingKeepsDone(StageOne(s, p, now), event, channels[1..], now, i);
    }
  }

  lemma {:induction false} DoneAlways(limit: nat, states: seq<State>, steps: seq<Step>, n: nat, k: nat, i: nat)
    requires Behaviour(limit, states, steps) && n <= k < |states| && DoneWith(states[n], i)
    ensures DoneWith(states[k], i)
    decreases k
  {
    if n < k {
      DoneAlways(limit, states, steps, n, k - 1, i);
      InvAlways(limit, states, steps, k - 1);
      assert Linked(limit, states[k - 1], steps[k - 1], states[k]);
      var step := steps[k - 1];
      if step.Commit? { StagingKeepsDone(states[k - 1], step.event, step.channels, step.now, i); }
    }
  }

  /** A row once marked is never read by a relay again, and what a relay reads is the oldest of what is
      pending: nothing it leaves behind was created before anything it takes. */
  lemma ReadsOnlyTheOldestPending(limit: nat, states: seq<State>, steps: seq<Step>, n: nat, k: nat, i: nat)
    requires Behaviour(limit, states, steps) && n <= k < |steps| && steps[k].Start?
    ensures i in states[n].rows && states[n].rows[i].publishedAt.Some? ==>
              forall j :: 0 <= j < |steps[k].batch| ==> steps[k].batch[j].id != i
    ensures |steps[k].batch| <= limit
    ensures i in states[k].rows && states[k].rows[i].publishedAt.None?
            && (forall j :: 0 <= j < |steps[k].batch| ==> steps[k].batch[j].id != i) ==>
              forall j :: 0 <= j < |steps[k].batch| ==>
                steps[k].batch[j].id in states[k].rows
                && states[k].rows[steps[k].batch[j].id].createdAt <= states[k].rows[i].createdAt
  {
    var batch := steps[k].batch;
    assert Linked(limit, states[k], steps[k], states[k + 1]);
    forall j | 0 <= j < |batch| ensures IsPendingItem(states[k].rows, batch[j]) {}
    if i in states[n].rows && states[n].rows[i].publishedAt.Some? {
      InvAlways(limit, states, steps, n);
      DoneAlways(limit, states, steps, n, k, i);
    }
    if i in states[k].rows && forall j :: 0 <= j < |batch| ==> batch[j].id != i {
      assert Item(i, states[k].rows[i].pair) !in batch;
    }
  }
}
