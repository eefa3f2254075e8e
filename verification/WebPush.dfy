/** The web-push channel: one claim covers the channel, but a send fans out to every browser the user
    registered, so the claimed row remembers which endpoints were reached. */
module WebPush {
  import opened Domain
  import opened DeliveryLog

  datatype Sub = Sub(id: nat, endpoint: string)

  // How the push service answers for an endpoint, and what becomes of the write that follows.
  datatype Reaction = Accepts(mark: Outcome) | Gone(remove: Outcome) | Refuses

  // `accepted` lists the endpoints push services took the alert for; `lost` those whose mark was not
  // recorded. Both are history: no operation reads them.
  datatype Push = Push(log: Table, subs: seq<Sub>, accepted: seq<string>, lost: seq<string>)

  datatype Result = Returned | Permanent | Transient

  ghost predicate Distinct(subs: seq<Sub>) {
    forall i, j :: 0 <= i < j < |subs| ==> subs[i].endpoint != subs[j].endpoint && subs[i].id != subs[j].id
  }

  function Reached(log: Table, p: Pair): seq<string> {
    if p in log then log[p].deliveredTo else []
  }

  function Unreached(subs: seq<Sub>, reached: seq<string>): seq<Sub> {
    if subs == [] then []
    else (if subs[0].endpoint in reached then [] else [subs[0]]) + Unreached(subs[1..], reached)
  }

  function Without(subs: seq<Sub>, id: nat): seq<Sub> {
    if subs == [] then []
    else (if subs[0].id == id then [] else [subs[0]]) + Without(subs[1..], id)
  }

  // ---- The loop ----

  // `delivered` counts acceptances, `failed` stands for a remembered error, `aborted` for one that
  // escaped the loop.
  datatype Walk = Walk(push: Push, delivered: nat, failed: bool, aborted: bool) {
    function Outcome(): Result {
      if aborted || failed then Transient else if delivered == 0 then Permanent else Returned
    }
  }

  function Marked(push: Push, p: Pair, endpoint: string, mark: Outcome): Push {
    var told := push.(accepted := push.accepted + [endpoint]);
    if mark.Lands() && p in push.log then told.(log := MarkedDelivered(push.log, p, endpoint))
    else told.(lost := push.lost + [endpoint])
  }

  function Pruned(push: Push, id: nat, remove: Outcome): Push {
    if remove.Lands() then push.(subs := Without(push.subs, id)) else push
  }

  function Visit(w: Walk, p: Pair, sub: Sub, reaction: Reaction): Walk {
    if w.aborted then w else
    match reaction
    case Accepts(mark) =>
      Walk(Marked(w.push, p, sub.endpoint, mark), w.delivered + 1, w.failed || !mark.Answered?, false)
    case Gone(remove) => w.(push := Pruned(w.push, sub.id, remove), aborted := !remove.Answered?)
    case Refuses => w.(failed := true)
  }

  function Visits(push: Push, p: Pair, pending: seq<Sub>, react: string -> Reaction): Walk {
    if pending == [] then Walk(push, 0, false, false)
    else
      var last := pending[|pending| - 1];
      Visit(Visits(push, p, pending[..|pending| - 1], react), p, last, react(last.endpoint))
  }

  // Whether the reads of the subscriptions and of the recorded destinations answer.
  datatype Reads = Reads(subs: bool, reached: bool)

  const BOTH_READ := Reads(true, true)

  function ResultOf(push: Push, p: Pair, configured: bool, read: Reads, react: string -> Reaction): Result {
    var pending := Unreached(push.subs, Reached(push.log, p));
    if !configured then Permanent
    else if !read.subs then Transient
    else if push.subs == [] then Permanent
    else if !read.reached then Transient
    else if pending == [] then Returned
    else Visits(push, p, pending, react).Outcome()
  }

  function PushAfter(push: Push, p: Pair, configured: bool, read: Reads, react: string -> Reaction): Push {
    if !configured || read != BOTH_READ || push.subs == [] then push
    else Visits(push, p, Unreached(push.subs, Reached(push.log, p)), react).push
  }

  class WebPushChannel {
    const deliveries: DeliveryTable
    const configured: bool
    var subs: seq<Sub>
    var accepted: seq<string>
    var lost: seq<string>

    constructor (deliveries: DeliveryTable, configured: bool, subs: seq<Sub>)
      ensures this.deliveries == deliveries && this.configured == configured
      ensures this.subs == subs && accepted == [] && lost == []
    {
      this.deliveries, this.configured, this.subs := deliveries, configured, subs;
      accepted, lost := [], [];
    }

    function View(): Push
      reads this, deliveries
    {
      Push(deliveries.rows, subs, accepted, lost)
    }

    // One endpoint: send, then mark or prune. `aborted` stands for an error that escapes the loop.
    method SendTo(p: Pair, sub: Sub, reaction: Reaction, ghost w: Walk)
      returns (delivered: bool, failed: bool, aborted: bool)
      requires w.push == View() && !w.aborted
      modifies this, deliveries
      ensures Visit(w, p, sub, reaction)
           == Walk(View(), w.delivered + (if delivered then 1 else 0), w.failed || failed, aborted)
    {
      delivered, failed, aborted := false, false, false;
      match reaction {
        case Accepts(mark) =>
          accepted := accepted + [sub.endpoint];
          delivered := true;
          if mark.Lands() && p in deliveries.rows {
            deliveries.MarkDelivered(p, sub.endpoint);
          } else {
            lost := lost + [sub.endpoint];
          }
          failed := !mark.Answered?;
        case Gone(remove) =>
          if remove.Lands() {
            subs := Without(subs, sub.id);
          }
          aborted := !remove.Answered?;
        case Refuses =>
          failed := true;
      }
    }

    method FanOut(p: Pair, pending: seq<Sub>, react: string -> Reaction) returns (result: Result)
      modifies this, deliveries
      ensures result == Visits(old(View()), p, pending, react).Outcome()
      ensures View() == Visits(old(View()), p, pending, react).push
    {
      ghost var before := View();
      var delivered: nat, lastError := 0, false;
      for i := 0 to |pending|
        invariant Visits(before, p, pending[..i], react) == Walk(View(), delivered, lastError, false)
      {
        VisitsNext(before, p, pending, react, i);
        ghost var w := Walk(View(), delivered, lastError, false);
        var reached, failed, aborted := SendTo(p, pending[i], react(pending[i].endpoint), w);
        if aborted {
          AbortedStays(before, p, pending, react, i + 1);
          return Transient;
        }
        delivered := if reached then delivered + 1 else delivered;
        lastError := lastError || failed;
      }
      assert pending[..|pending|] == pending;
      if lastError {
        return Transient;
      }
      return if delivered == 0 then Permanent else Returned;
    }

    method Send(p: Pair, read: Reads, react: string -> Reaction) returns (result: Result)
      modifies this, deliveries
      ensures result == ResultOf(old(View()), p, configured, read, react)
      ensures View() == PushAfter(old(View()), p, configured, read, react)
    {
      if !configured {
        return Permanent;
      }
      if !read.subs {
        return Transient;
      }
      if |subs| == 0 {
        return Permanent;
      }
      if !read.reached {
        return Transient;
      }
      var already := deliveries.DeliveredDestinations(p);
      var pending := Unreached(subs, already);
      if |pending| == 0 {
        return Returned;
      }
      result := FanOut(p, pending, react);
    }
  }

  lemma VisitsNext(push: Push, p: Pair, pending: seq<Sub>, react: string -> Reaction, i: nat)
    requires i < |pending|
    ensures Visits(push, p, pending[..i + 1], react)
         == Visit(Visits(push, p, pending[..i], react), p, pending[i], react(pending[i].endpoint))
  {
    assert pending[..i + 1][..i] == pending[..i];
  }

  lemma {:induction false} AbortedStays(push: Push, p: Pair, pending: seq<Sub>, react: string -> Reaction, n: nat)
    requires n <= |pending| && Visits(push, p, pending[..n], react).aborted
    ensures Visits(push, p, pending, react) == Visits(push, p, pending[..n], react)
    decreases |pending|
  {
    if n < |pending| {
      var front := pending[..|pending| - 1];
      assert front[..n] == pending[..n];
      AbortedStays(push, p, front, react, n);
    } else {
      assert pending[..n] == pending;
    }
  }

  // ---- What a send's result means ----

  lemma {:induction false} UnreachedIff(subs: seq<Sub>, reached: seq<string>, sub: Sub)
    ensures sub in Unreached(subs, reached) <==> sub in subs && sub.endpoint !in reached
  {
    if subs != [] {
      UnreachedIff(subs[1..], reached, sub);
      assert subs == [subs[0]] + subs[1..];
    }
  }

  lemma {:induction false} UnreachedDistinct(subs: seq<Sub>, reached: seq<string>)
    requires Distinct(subs)
    ensures Distinct(Unreached(subs, reached))
  {
    if subs != [] {
      UnreachedDistinct(subs[1..], reached);
      var rest := Unreached(subs[1..], reached);
      forall j | 0 <= j < |rest| ensures rest[j] in subs[1..] { UnreachedIff(subs[1..], reached, rest[j]); }
    }
  }

  lemma {:induction false} WithoutIff(subs: seq<Sub>, id: nat, sub: Sub)
    ensures sub in Without(subs, id) <==> sub in subs && sub.id != id
  {
    if subs != [] {
      WithoutIff(subs[1..], id, sub);
      assert subs == [subs[0]] + subs[1..];
    }
  }

  predicate Clean(reaction: Reaction) {
    reaction == Accepts(Answered) || reaction == Gone(Answered)
  }

  ghost predicate DoneWith(push: Push, p: Pair, sub: Sub) {
    sub.endpoint in Reached(push.log, p) || sub !in push.subs
  }

  predicate AllClean(pending: seq<Sub>, react: string -> Reaction) {
    forall sub :: sub in pending ==> Clean(react(sub.endpoint))
  }

  predicate AllGone(pending: seq<Sub>, react: string -> Reaction) {
    forall sub :: sub in pending ==> react(sub.endpoint).Gone?
  }

  lemma AllSplit(pending: seq<Sub>, react: string -> Reaction)
    requires pending != []
    ensures var front, last := pending[..|pending| - 1], pending[|pending| - 1];
            && (AllClean(pending, react) <==> AllClean(front, react) && Clean(react(last.endpoint)))
            && (AllGone(pending, react) <==> AllGone(front, react) && react(last.endpoint).Gone?)
  {
    var front, last := pending[..|pending| - 1], pending[|pending| - 1];
    assert pending == front + [last];
  }

  // The loop's verdict does not depend on the order of the subscriptions.
  lemma {:induction false} VerdictOfLoop(push: Push, p: Pair, pending: seq<Sub>, react: string -> Reaction)
    ensures var w := Visits(push, p, pending, react);
            && (!w.aborted && !w.failed <==> AllClean(pending, react))
            && (!w.aborted && !w.failed ==> (w.delivered == 0 <==> AllGone(pending, react)))
    decreases |pending|
  {
    if pending != [] {
      VerdictOfLoop(push, p, pending[..|pending| - 1], react);
      AllSplit(pending, react);
    }
  }

  lemma {:induction false} ReachedKept(push: Push, p: Pair, pending: seq<Sub>, react: string -> Reaction)
    ensures var w := Visits(push, p, pending, react);
            && Reached(push.log, p) <= Reached(w.push.log, p)
            && (p in push.log <==> p in w.push.log)
            && forall sub :: sub in w.push.subs ==> sub in push.subs
    decreases |pending|
  {
    if pending != [] {
      var front, last := pending[..|pending| - 1], pending[|pending| - 1];
      ReachedKept(push, p, front, react);
      var before := Visits(push, p, front, react).push;
      forall sub: Sub ensures sub in Without(before.subs, last.id) ==> sub in before.subs {
        WithoutIff(before.subs, last.id, sub);
      }
    }
  }

  lemma {:induction false} CleanLoopSettles(push: Push, p: Pair, pending: seq<Sub>, react: string -> Reaction, sub: Sub)
    requires p in push.log && sub in pending
    requires forall s :: s in pending ==> Clean(react(s.endpoint))
    ensures DoneWith(Visits(push, p, pending, react).push, p, sub)
    decreases |pending|
  {
    var front, last := pending[..|pending| - 1], pending[|pending| - 1];
    assert pending == front + [last];
    VerdictOfLoop(push, p, front, react);
    ReachedKept(push, p, front, react);
    var before := Visits(push, p, front, react).push;
    WithoutIff(before.subs, last.id, sub);
    if sub in front {
      CleanLoopSettles(push, p, front, react, sub);
    }
  }

  /** The result, told from the answers alone: a permanent failure means there was nobody left to
      reach; a transient one that a read failed or some pending endpoint neither accepted (with its
      mark answered) nor was pruned; anything else is a normal return. */
  lemma ResultIff(push: Push, p: Pair, configured: bool, read: Reads, react: string -> Reaction)
    ensures var pending := Unreached(push.subs, Reached(push.log, p));
            var result := ResultOf(push, p, configured, read, react);
            && (result == Permanent <==>
                  || !configured
                  || (read.subs && push.subs == [])
                  || (read == BOTH_READ && pending != []
                      && forall sub :: sub in pending ==> react(sub.endpoint) == Gone(Answered)))
            && (result == Transient <==>
                  && configured
                  && (|| !read.subs
                      || (!read.reached && push.subs != [])
                      || (read.reached && exists sub :: sub in pending && !Clean(react(sub.endpoint)))))
  {
    VerdictOfLoop(push, p, Unreached(push.subs, Reached(push.log, p)), react);
  }

  /** Normal return: every subscription that was read is recorded as delivered or has been pruned. */
  lemma ReturnSettlesAll(push: Push, p: Pair, configured: bool, read: Reads, react: string -> Reaction, sub: Sub)
    requires p in push.log && sub in push.subs && ResultOf(push, p, configured, read, react) == Returned
    ensures DoneWith(PushAfter(push, p, configured, read, react), p, sub)
  {
    var reached := Reached(push.log, p);
    var pending := Unreached(push.subs, reached);
    UnreachedIff(push.subs, reached, sub);
    ReachedKept(push, p, pending, react);
    if sub in pending {
      VerdictOfLoop(push, p, pending, react);
      CleanLoopSettles(push, p, pending, react, sub);
    }
  }

  // ---- What a send leaves behind ----

  // No prune fails towards the caller, so the loop visits everyone.
  predicate RunsThrough(pending: seq<Sub>, react: string -> Reaction) {
    forall sub :: sub in pending && react(sub.endpoint).Gone? ==> react(sub.endpoint).remove.Answered?
  }

  ghost predicate Expired(pending: seq<Sub>, react: string -> Reaction, id: nat) {
    exists sub :: sub in pending && sub.id == id && react(sub.endpoint).Gone?
  }

  ghost predicate NewlyReached(pending: seq<Sub>, react: string -> Reaction, endpoint: string) {
    exists sub :: sub in pending && sub.endpoint == endpoint
                  && react(endpoint).Accepts? && react(endpoint).mark.Lands()
  }

  // The endpoints that take the alert, in the order they are visited.
  function Taking(pending: seq<Sub>, react: string -> Reaction): seq<string> {
    if pending == [] then []
    else
      var last := pending[|pending| - 1].endpoint;
      Taking(pending[..|pending| - 1], react) + if react(last).Accepts? then [last] else []
  }

  lemma LastOrBefore(pending: seq<Sub>)
    requires pending != []
    ensures forall sub :: sub in pending <==> sub in pending[..|pending| - 1] || sub == pending[|pending| - 1]
  {
    assert pending == pending[..|pending| - 1] + [pending[|pending| - 1]];
  }

  lemma {:induction false} LoopPrunes(push: Push, p: Pair, pending: seq<Sub>, react: string -> Reaction, sub: Sub)
    requires RunsThrough(pending, react)
    ensures !Visits(push, p, pending, react).aborted
    ensures sub in Visits(push, p, pending, react).push.subs <==> sub in push.subs && !Expired(pending, react, sub.id)
    decreases |pending|
  {
    if pending != [] {
      var front, last := pending[..|pending| - 1], pending[|pending| - 1];
      LastOrBefore(pending);
      LoopPrunes(push, p, front, react, sub);
      WithoutIff(Visits(push, p, front, react).push.subs, last.id, sub);
      assert Expired(pending, react, sub.id) <==>
          Expired(front, react, sub.id) || (last.id == sub.id && react(last.endpoint).Gone?);
    }
  }

  lemma {:induction false} LoopReaches(push: Push, p: Pair, pending: seq<Sub>, react: string -> Reaction, e: string)
    requires RunsThrough(pending, react) && p in push.log
    ensures var after := Visits(push, p, pending, react);
            && !after.aborted && p in after.push.log && after.push.accepted == push.accepted + Taking(pending, react)
            && (e in Reached(after.push.log, p) <==> e in Reached(push.log, p) || NewlyReached(pending, react, e))
            && after.push.log[p].(deliveredTo := push.log[p].deliveredTo) == push.log[p]
            && after.push.log - {p} == push.log - {p}
    decreases |pending|
  {
    if pending != [] {
      var front, last := pending[..|pending| - 1], pending[|pending| - 1];
      LastOrBefore(pending);
      LoopReaches(push, p, front, react, e);
      assert NewlyReached(pending, react, e) <==>
          NewlyReached(front, react, e)
          || (last.endpoint == e && react(e).Accepts? && react(e).mark.Lands());
    }
  }

  /** What a send that runs through leaves behind, endpoint by endpoint: exactly the expired
      subscriptions among the pending ones are gone, exactly those that accepted are added to the
      record, each pending endpoint that accepts has been sent to once and in order, and status, claim
      and every other row are as they were. */
  lemma SendEffects(push: Push, p: Pair, react: string -> Reaction, sub: Sub, e: string)
    requires p in push.log && push.subs != []
    requires RunsThrough(Unreached(push.subs, Reached(push.log, p)), react)
    ensures var pending := Unreached(push.subs, Reached(push.log, p));
            var after := PushAfter(push, p, true, BOTH_READ, react);
            && (sub in after.subs <==> sub in push.subs && !Expired(pending, react, sub.id))
            && p in after.log
            && (e in Reached(after.log, p) <==> e in Reached(push.log, p) || NewlyReached(pending, react, e))
            && after.accepted == push.accepted + Taking(pending, react)
            && after.log[p].(deliveredTo := push.log[p].deliveredTo) == push.log[p]
            && after.log - {p} == push.log - {p}
  {
    var pending := Unreached(push.subs, Reached(push.log, p));
    LoopPrunes(push, p, pending, react, sub);
    LoopReaches(push, p, pending, react, e);
  }

  // Some registered browser is still to be reached, and every such one is gone and gets pruned.
  ghost predicate OnlyGoneLeft(push: Push, p: Pair, react: string -> Reaction) {
    && (exists sub :: sub in push.subs && sub.endpoint !in Reached(push.log, p))
    && (forall sub :: sub in push.subs ==>
          sub.endpoint in Reached(push.log, p) || react(sub.endpoint) == Gone(Answered))
  }

  /** A retry fails for good, and the delivery is then settled FAILED, although an earlier attempt
      reached a browser: exactly when the keys are gone from the configuration, the user has no
      subscription any more, or every subscription still to be reached has expired. */
  lemma FailsThoughDeliveredIff(push: Push, p: Pair, configured: bool, read: Reads, react: string -> Reaction)
    ensures (ResultOf(push, p, configured, read, react) == Permanent && Reached(push.log, p) != [])
       <==> && Reached(push.log, p) != []
            && (|| !configured
                || (read.subs && push.subs == [])
                || (read == BOTH_READ && OnlyGoneLeft(push, p, react)))
  {
    var reached := Reached(push.log, p);
    var pending := Unreached(push.subs, reached);
    ResultIff(push, p, configured, read, react);
    forall sub ensures sub in pending <==> sub in push.subs && sub.endpoint !in reached {
      UnreachedIff(push.subs, reached, sub);
    }
    if pending != [] { assert pending[0] in pending; }
  }

  // ---- Over any number of attempts ----

  // `Attempt` may die after visiting `alive` of the pending endpoints.
  datatype Event =
    | Claim(now: int, cutoff: int)
    | Release
    | Settle(status: Status)
    | Subscribe(sub: Sub)
    | Unsubscribe(id: nat)
    | Attempt(react: string -> Reaction, alive: nat)

  function Claimed(log: Table, p: Pair, now: int, cutoff: int): Table {
    if p !in log then Inserted(log, p, now)
    else if Takeable(log, p, cutoff) then TakenOver(log, p, now)
    else log
  }

  function Visited(push: Push, p: Pair, alive: nat): seq<Sub> {
    var pending := Unreached(push.subs, Reached(push.log, p));
    if alive < |pending| then pending[..alive] else pending
  }

  function Next(push: Push, p: Pair, event: Event): Push {
    match event
    case Claim(now, cutoff) => push.(log := Claimed(push.log, p, now, cutoff))
    case Release => push.(log := Released(push.log, p))
    case Settle(status) => push.(log := Settled(push.log, p, status))
    case Subscribe(sub) => push.(subs := push.subs + [sub])
    case Unsubscribe(id) => push.(subs := Without(push.subs, id))
    case Attempt(react, alive) => Visits(push, p, Visited(push, p, alive), react).push
  }

  // An attempt runs under a claim, so its row is there; endpoints and ids are unique.
  ghost predicate Allowed(push: Push, p: Pair, event: Event) {
    match event
    case Attempt(_, _) => p in push.log
    case Subscribe(sub) => forall s :: s in push.subs ==> s.endpoint != sub.endpoint && s.id != sub.id
    case _ => true
  }

  ghost predicate Run(pushes: seq<Push>, events: seq<Event>, p: Pair) {
    && |pushes| == |events| + 1
    && Distinct(pushes[0].subs) && p !in pushes[0].log && pushes[0].accepted == pushes[0].lost == []
    && forall i :: 0 <= i < |events| ==> Linked(pushes[i], p, events[i], pushes[i + 1])
  }

  ghost predicate Linked(push: Push, p: Pair, event: Event, push': Push) {
    Allowed(push, p, event) && push' == Next(push, p, event)
  }

  // Acceptances of an endpoint are covered by its record in the row and by marks that got lost.
  ghost predicate Accounted(push: Push, p: Pair) {
    forall e :: multiset(push.accepted)[e] <= multiset(push.lost)[e] + if e in Reached(push.log, p) then 1 else 0
  }

  ghost predicate Inv(push: Push, p: Pair) {
    Distinct(push.subs) && Accounted(push, p)
  }

  lemma MarkAccounts(push: Push, p: Pair, endpoint: string, mark: Outcome)
    requires Accounted(push, p) && endpoint !in Reached(push.log, p)
    ensures Accounted(Marked(push, p, endpoint, mark), p)
  {
    var push' := Marked(push, p, endpoint, mark);
    assert multiset(push'.accepted) == multiset(push.accepted) + multiset{endpoint};
    if push'.lost != push.lost {
      assert multiset(push'.lost) == multiset(push.lost) + multiset{endpoint};
    }
  }

  lemma VisitAccounts(w: Walk, p: Pair, sub: Sub, reaction: Reaction)
    requires Inv(w.push, p) && sub.endpoint !in Reached(w.push.log, p)
    ensures Inv(Visit(w, p, sub, reaction).push, p)
    ensures forall e :: e in Reached(Visit(w, p, sub, reaction).push.log, p) ==>
              e in Reached(w.push.log, p) || e == sub.endpoint
  {
    match reaction
    case Accepts(mark) => MarkAccounts(w.push, p, sub.endpoint, mark);
    case Gone(_) => WithoutDistinct(w.push.subs, sub.id);
    case Refuses =>
  }

  ghost predicate Fresh(pending: seq<Sub>, reached: seq<string>) {
    Distinct(pending) && forall i :: 0 <= i < |pending| ==> pending[i].endpoint !in reached
  }

  lemma {:induction false} LoopAccounts(push: Push, p: Pair, pending: seq<Sub>, react: string -> Reaction)
    requires Inv(push, p) && Fresh(pending, Reached(push.log, p))
    ensures Inv(Visits(push, p, pending, react).push, p)
    ensures forall e :: e in Reached(Visits(push, p, pending, react).push.log, p) ==>
              e in Reached(push.log, p) || exists i :: 0 <= i < |pending| && pending[i].endpoint == e
    decreases |pending|
  {
    if pending != [] {
      var front, last := pending[..|pending| - 1], pending[|pending| - 1];
      LoopAccounts(push, p, front, react);
      VisitAccounts(Visits(push, p, front, react), p, last, react(last.endpoint));
    }
  }

  lemma {:induction false} WithoutDistinct(subs: seq<Sub>, id: nat)
    requires Distinct(subs)
    ensures Distinct(Without(subs, id))
  {
    if subs != [] {
      WithoutDistinct(subs[1..], id);
      var rest := Without(subs[1..], id);
      forall j | 0 <= j < |rest| ensures rest[j] in subs[1..] { WithoutIff(subs[1..], id, rest[j]); }
    }
  }

  lemma EventKeeps(push: Push, p: Pair, event: Event)
    requires Inv(push, p) && Allowed(push, p, event)
    ensures Inv(Next(push, p, event), p)
    ensures Reached(push.log, p) <= Reached(Next(push, p, event).log, p)
  {
    match event
    case Attempt(react, alive) =>
      var reached := Reached(push.log, p);
      var pending, visited := Unreached(push.subs, reached), Visited(push, p, alive);
      UnreachedDistinct(push.subs, reached);
      forall i | 0 <= i < |visited| ensures visited[i].endpoint !in reached {
        assert visited[i] in pending;
        UnreachedIff(push.subs, reached, visited[i]);
      }
      LoopAccounts(push, p, visited, react);
      ReachedKept(push, p, visited, react);
    case Unsubscribe(id) => WithoutDistinct(push.subs, id);
    case Claim(_, _) =>
    case Release =>
    case Settle(_) =>
    case Subscribe(_) =>
  }

  lemma {:induction false} InvAlways(pushes: seq<Push>, events: seq<Event>, p: Pair, n: nat)
    requires Run(pushes, events, p) && n < |pushes|
    ensures Inv(pushes[n], p)
  {
    if n > 0 {
      InvAlways(pushes, events, p, n - 1);
      assert Linked(pushes[n - 1], p, events[n - 1], pushes[n]);
      EventKeeps(pushes[n - 1], p, events[n - 1]);
    }
  }

  lemma ReachedGrowsOnce(pushes: seq<Push>, events: seq<Event>, p: Pair, n: nat)
    requires Run(pushes, events, p) && n < |events|
    ensures Reached(pushes[n].log, p) <= Reached(pushes[n + 1].log, p)
  {
    InvAlways(pushes, events, p, n);
    assert Linked(pushes[n], p, events[n], pushes[n + 1]);
    EventKeeps(pushes[n], p, events[n]);
  }

  /** `deliveredTo` only grows, through every claim, take-over, release, settle and attempt. */
  lemma {:induction false} ReachedOnlyGrows(pushes: seq<Push>, events: seq<Event>, p: Pair, m: nat, n: nat)
    requires Run(pushes, events, p) && m <= n < |pushes|
    ensures Reached(pushes[m].log, p) <= Reached(pushes[n].log, p)
    decreases n
  {
    if m < n {
      ReachedOnlyGrows(pushes, events, p, m, n - 1);
      ReachedGrowsOnce(pushes, events, p, n - 1);
    }
  }

  predicate MarkLands(reaction: Reaction) {
    reaction.Accepts? ==> reaction.mark.Lands()
  }

  lemma {:induction false} NoneLostInLoop(push: Push, p: Pair, pending: seq<Sub>, react: string -> Reaction)
    requires p in push.log && forall e :: MarkLands(react(e))
    ensures Visits(push, p, pending, react).push.lost == push.lost
    ensures p in Visits(push, p, pending, react).push.log
    decreases |pending|
  {
    if pending != [] {
      NoneLostInLoop(push, p, pending[..|pending| - 1], react);
      assert MarkLands(react(pending[|pending| - 1].endpoint));
    }
  }

  lemma {:induction false} NoneLost(pushes: seq<Push>, events: seq<Event>, p: Pair, n: nat)
    requires Run(pushes, events, p) && n < |pushes|
    requires forall i :: 0 <= i < |events| && events[i].Attempt? ==> forall e :: MarkLands(events[i].react(e))
    ensures pushes[n].lost == []
  {
    if n > 0 {
      NoneLost(pushes, events, p, n - 1);
      assert Linked(pushes[n - 1], p, events[n - 1], pushes[n]);
      if events[n - 1].Attempt? {
        NoneLostInLoop(pushes[n - 1], p, Visited(pushes[n - 1], p, events[n - 1].alive), events[n - 1].react);
      }
    }
  }

  /** Fan-out: across any number of attempts, crashed ones included, an endpoint is sent to
      successfully at most once more than marks for it were lost; with every mark landing, at most
      once. */
  lemma SentOncePerEndpoint(pushes: seq<Push>, events: seq<Event>, p: Pair, n: nat, endpoint: string)
    requires Run(pushes, events, p) && n < |pushes|
    ensures multiset(pushes[n].accepted)[endpoint] <= 1 + multiset(pushes[n].lost)[endpoint]
    ensures (forall i :: 0 <= i < |events| && events[i].Attempt? ==> forall e :: MarkLands(events[i].react(e))) ==>
              multiset(pushes[n].accepted)[endpoint] <= 1
  {
    InvAlways(pushes, events, p, n);
    if forall i :: 0 <= i < |events| && events[i].Attempt? ==> forall e :: MarkLands(events[i].react(e)) {
      NoneLost(pushes, events, p, n);
    }
  }

  // ---- A retry that fails although a browser was reached ----

  const A := Sub(1, "a")
  const B := Sub(2, "b")

  function OnlyA(endpoint: string): Reaction {
    if endpoint == "a" then Accepts(Answered) else Refuses
  }

  // The state after a first attempt that reached browser a and not browser b, its claim handed back.
  function OneReached(p: Pair, subs: seq<Sub>): Push {
    Push(map[p := Row(Status.Pending, None, ["a"])], subs, ["a"], [])
  }

  lemma OfTwo(x: Sub, y: Sub, reached: seq<string>, id: nat)
    ensures Unreached([x, y], reached)
         == (if x.endpoint in reached then [] else [x]) + (if y.endpoint in reached then [] else [y])
    ensures Without([x, y], id) == (if x.id == id then [] else [x]) + (if y.id == id then [] else [y])
    ensures Without([y], id) == if y.id == id then [] else [y]
  {
    var both, one := [x, y], [y];
    assert both[1..] == one && one[1..] == [];
    assert Unreached(one, reached) == (if y.endpoint in reached then [] else [y]) + Unreached([], reached);
    assert Without(one, id) == (if y.id == id then [] else [y]) + Without([], id);
  }

  lemma FirstAttempt(p: Pair, push: Push)
    requires push == Push(map[p := Row(Status.Pending, Some(0), [])], [A, B], [], [])
    ensures Visits(push, p, [A, B], OnlyA).push
         == Push(map[p := Row(Status.Pending, Some(0), ["a"])], [A, B], ["a"], [])
  {
    var both, reached := [A, B], Marked(push, p, "a", Answered);
    assert both[..0] == [] && both[0] == A && both[1] == B && both[..2] == both;
    assert OnlyA(B.endpoint) == Refuses by { assert "b"[0] != "a"[0]; }
    VisitsNext(push, p, both, OnlyA, 0);
    assert Visits(push, p, both[..1], OnlyA) == Walk(reached, 1, false, false);
    VisitsNext(push, p, both, OnlyA, 1);
    assert Visits(push, p, both, OnlyA) == Walk(reached, 1, true, false);
    assert push.log[p].deliveredTo + ["a"] == ["a"];
    assert reached.log[p] == Row(Status.Pending, Some(0), ["a"]);
    assert reached.log == map[p := Row(Status.Pending, Some(0), ["a"])];
  }

  lemma FirstRun(p: Pair) returns (pushes: seq<Push>, events: seq<Event>)
    ensures Run(pushes, events, p) && pushes[|events|] == OneReached(p, [A, B])
  {
    var p0, p1 := Push(map[], [A, B], [], []), Push(map[p := Row(Status.Pending, Some(0), [])], [A, B], [], []);
    var p2 := Push(map[p := Row(Status.Pending, Some(0), ["a"])], [A, B], ["a"], []);
    var p3 := OneReached(p, [A, B]);
    events := [Claim(0, -CLAIM_LEASE_MS), Attempt(OnlyA, 2), Release];
    pushes := [p0, p1, p2, p3];
    assert "b"[0] != "a"[0];
    OfTwo(A, B, [], 0);
    assert Visited(p1, p, 2) == [A, B];
    FirstAttempt(p, p1);
    assert Linked(p0, p, events[0], p1) && Linked(p1, p, events[1], p2) && Linked(p2, p, events[2], p3);
  }

  lemma Longer(pushes: seq<Push>, events: seq<Event>, p: Pair, event: Event)
    returns (pushes': seq<Push>, events': seq<Event>)
    requires Run(pushes, events, p) && Allowed(pushes[|events|], p, event)
    ensures Run(pushes', events', p) && pushes'[|events'|] == Next(pushes[|events|], p, event)
  {
    pushes', events' := pushes + [Next(pushes[|events|], p, event)], events + [event];
    forall i | 0 <= i < |events'| ensures Linked(pushes'[i], p, events'[i], pushes'[i + 1]) {
      if i < |events| { assert Linked(pushes[i], p, events[i], pushes[i + 1]); }
    }
  }

  /** A run in which browser a is reached on the first attempt; by the retry the subscription of b has
      expired, and the retry fails for good. */
  lemma RetryFailsThoughDelivered(p: Pair) returns (pushes: seq<Push>, events: seq<Event>)
    ensures Run(pushes, events, p)
    ensures var push := pushes[|events|];
            && Reached(push.log, p) == ["a"] && push.subs == [A, B]
            && ResultOf(push, p, true, BOTH_READ, _ => Gone(Answered)) == Permanent
  {
    pushes, events := FirstRun(p);
    pushes, events := Longer(pushes, events, p, Claim(1, 1 - CLAIM_LEASE_MS));
    var push := pushes[|events|];
    assert Reached(push.log, p) == ["a"];
    assert push.subs[1].endpoint[0] == 'b' && push.subs[1].endpoint !in Reached(push.log, p);
    FailsThoughDeliveredIff(push, p, true, BOTH_READ, _ => Gone(Answered));
  }

  /** The same with the reached browser unsubscribed in between. */
  lemma UnsubscribedRetryFails(p: Pair) returns (pushes: seq<Push>, events: seq<Event>)
    ensures Run(pushes, events, p)
    ensures var push := pushes[|events|];
            && Reached(push.log, p) == ["a"] && push.subs == [B]
            && ResultOf(push, p, true, BOTH_READ, _ => Gone(Answered)) == Permanent
  {
    pushes, events := FirstRun(p);
    pushes, events := Longer(pushes, events, p, Claim(1, 1 - CLAIM_LEASE_MS));
    OfTwo(A, B, [], 1);
    pushes, events := Longer(pushes, events, p, Unsubscribe(1));
    var push := pushes[|events|];
    assert push.subs == [B] && Reached(push.log, p) == ["a"];
    assert push.subs[0].endpoint[0] == 'b' && push.subs[0].endpoint !in Reached(push.log, p);
    FailsThoughDeliveredIff(push, p, true, BOTH_READ, _ => Gone(Answered));
  }

  /** And with both unsubscribed, whatever the push services would answer. */
  lemma NobodyLeftRetryFails(p: Pair, react: string -> Reaction) returns (pushes: seq<Push>, events: seq<Event>)
    ensures Run(pushes, events, p)
    ensures var push := pushes[|events|];
            && Reached(push.log, p) == ["a"] && push.subs == []
            && ResultOf(push, p, true, BOTH_READ, react) == Permanent
  {
    pushes, events := UnsubscribedRetryFails(p);
    OfTwo(A, B, [], 2);
    pushes, events := Longer(pushes, events, p, Unsubscribe(2));
    FailsThoughDeliveredIff(pushes[|events|], p, true, BOTH_READ, react);
  }
}
