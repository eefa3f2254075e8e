/** The relay pass as the service runs it when nothing overlaps: read the oldest pending rows, publish
    until the first refusal, mark what was accepted. Passes, new firings and sweeps may follow each
    other in any order; a pass may also die before its mark. */
module Relay {
  import opened Domain

  // The outbox in `createdAt` order.
  datatype Entry = Entry(id: nat, publishedAt: Option<int>)

  function Pending(table: seq<Entry>): seq<nat> {
    if table == [] then []
    else (if table[0].publishedAt.None? then [table[0].id] else []) + Pending(table[1..])
  }

  function Batch(table: seq<Entry>, limit: nat): seq<nat> {
    if |Pending(table)| <= limit then Pending(table) else Pending(table)[..limit]
  }

  function Marked(table: seq<Entry>, ids: seq<nat>, now: int): seq<Entry> {
    seq(|table|, i requires 0 <= i < |table| =>
      if table[i].id in ids then table[i].(publishedAt := Some(now)) else table[i])
  }

  predicate Swept(entry: Entry, before: int) {
    entry.publishedAt.Some? && entry.publishedAt.value < before
  }

  function Kept(table: seq<Entry>, before: int): seq<Entry> {
    if table == [] then []
    else (if Swept(table[0], before) then [] else [table[0]]) + Kept(table[1..], before)
  }

  // How much of the batch the broker has once a pass got `count` acceptances.
  function Taken(batch: seq<nat>, publish: nat -> Outcome, count: nat): nat {
    if count < |batch| && publish(count).Lands() then count + 1 else count
  }

  class OutboxRelay {
    var table: seq<Entry>
    var log: seq<nat>      // what the broker accepted, in order

    constructor ()
      ensures table == [] && log == []
    {
      table, log := [], [];
    }

    /** `publish(j)` says what becomes of the j-th publish of this pass, `mark` of the mark at its end.
        The pass is handed a prefix of the oldest-first batch accepted, stops at the first failure
        (whose message the broker may have taken all the same), and marks exactly that prefix. */
    method PublishPending(limit: nat, publish: nat -> Outcome, mark: Outcome, now: int)
      returns (count: nat, fails: bool)
      modifies this
      ensures count <= |Batch(old(table), limit)|
      ensures forall j :: 0 <= j < count ==> publish(j).Answered?
      ensures count < |Batch(old(table), limit)| ==> !publish(count).Answered?
      ensures log == old(log) + Batch(old(table), limit)[..Taken(Batch(old(table), limit), publish, count)]
      ensures table == if mark.Lands() then Marked(old(table), Batch(old(table), limit)[..count], now) else old(table)
      ensures fails <==> count > 0 && !mark.Answered?
    {
      var pending := Batch(table, limit);
      if |pending| == 0 {
        assert table == Marked(table, [], now);
        return 0, false;
      }
      var published: seq<nat> := [];
      var i := 0;
      while i < |pending| && publish(i).Answered?
        invariant 0 <= i <= |pending|
        invariant published == pending[..i] && log == old(log) + published && table == old(table)
        invariant forall j :: 0 <= j < i ==> publish(j).Answered?
      {
        log := log + [pending[i]];
        published := published + [pending[i]];
        i := i + 1;
      }
      if i < |pending| && publish(i).Lands() {
        log := log + [pending[i]];
      }
      count := |published|;
      fails := count > 0 && !mark.Answered?;
      if mark.Lands() {
        MarkPublished(published, now);
      }
    }

    method MarkPublished(ids: seq<nat>, now: int)
      modifies this`table
      ensures table == Marked(old(table), ids, now)
      ensures |table| == |old(table)|
      ensures forall i :: 0 <= i < |table| ==>
                && table[i].id == old(table)[i].id
                && table[i].publishedAt == if table[i].id in ids then Some(now) else old(table)[i].publishedAt
    {
      if |ids| == 0 {
        assert table == Marked(table, ids, now);
        return;
      }
      table := Marked(table, ids, now);
    }

    method PrunePublished(before: int) returns (count: nat)
      modifies this`table
      ensures table == Kept(old(table), before)
      ensures count == |old(table)| - |table|
      ensures forall e :: e in table <==>
                e in old(table) && (e.publishedAt.None? || e.publishedAt.value >= before)
    {
      var kept: seq<Entry> := [];
      var i := 0;
      while i < |table|
        invariant 0 <= i <= |table| && table == old(table)
        invariant kept + Kept(table[i..], before) == Kept(table, before) && |kept| <= i
      {
        assert table[i..][1..] == table[i + 1..];
        if !Swept(table[i], before) {
          kept := kept + [table[i]];
        }
        i := i + 1;
      }
      count := |table| - |kept|;
      table := kept;
      KeptIff(old(table), before);
    }
  }

  // A row goes exactly when it was published before the cut-off.
  lemma {:induction false} KeptIff(table: seq<Entry>, before: int)
    ensures forall e :: e in Kept(table, before) <==>
              e in table && (e.publishedAt.None? || e.publishedAt.value >= before)
  {
    if table != [] {
      KeptIff(table[1..], before);
      assert table == [table[0]] + table[1..];
    }
  }

  // ---- Runs ----

  datatype Event =
    | Stage(id: nat)
    | Pass(limit: nat, count: nat, taken: nat, marks: bool, now: int)
    | Prune(before: int)

  // `staged` is every id ever staged, in order.
  datatype State = State(table: seq<Entry>, log: seq<nat>, staged: seq<nat>)

  predicate Allowed(s: State, e: Event) {
    match e
    case Stage(id) => id !in s.staged
    case Pass(limit, count, taken, _, _) => count <= taken <= count + 1 && taken <= |Batch(s.table, limit)|
    case Prune(_) => true
  }

  function Next(s: State, e: Event): State
    requires Allowed(s, e)
  {
    match e
    case Stage(id) => s.(table := s.table + [Entry(id, None)], staged := s.staged + [id])
    case Pass(limit, count, taken, marks, now) =>
      var batch := Batch(s.table, limit);
      s.(log := s.log + batch[..taken], table := if marks then Marked(s.table, batch[..count], now) else s.table)
    case Prune(before) => s.(table := Kept(s.table, before))
  }

  ghost predicate Runs(events: seq<Event>, s: State, s': State)
    decreases |events|
  {
    if events == [] then s == s'
    else Allowed(s, events[0]) && Runs(events[1..], Next(s, events[0]), s')
  }

  /** The order in which ids were published for the first time. */
  function Firsts(log: seq<nat>): seq<nat> {
    if log == [] then []
    else
      var before := Firsts(log[..|log| - 1]);
      if log[|log| - 1] in log[..|log| - 1] then before else before + [log[|log| - 1]]
  }

  lemma {:induction false} FirstsMembers(log: seq<nat>)
    ensures forall x :: x in Firsts(log) <==> x in log
  {
    if log != [] {
      FirstsMembers(log[..|log| - 1]);
      assert log == log[..|log| - 1] + [log[|log| - 1]];
    }
  }

  ghost predicate Distinct(ids: seq<nat>) {
    forall i, j :: 0 <= i < j < |ids| ==> ids[i] != ids[j]
  }

  lemma SliceEnd(ids: seq<nat>, m: nat, k: nat)
    requires 0 < k && m + k <= |ids|
    ensures ids[m..m + k] == ids[m..m + k - 1] + [ids[m + k - 1]]
  {}

  // Publishing a stretch that starts inside what is already published extends the first
  // publications to the end of the stretch, and no further.
  lemma {:induction false} FirstsExtend(log: seq<nat>, staged: seq<nat>, f: nat, m: nat, k: nat)
    requires Distinct(staged) && m <= f <= |staged| && m + k <= |staged|
    requires Firsts(log) == staged[..f]
    ensures Firsts(log + staged[m..m + k]) == staged[..if f < m + k then m + k else f]
    decreases k
  {
    if k == 0 {
      assert log + staged[m..m] == log;
    } else {
      FirstsExtend(log, staged, f, m, k - 1);
      var shorter := log + staged[m..m + k - 1];
      var longer := log + staged[m..m + k];
      var x := staged[m + k - 1];
      SliceEnd(staged, m, k);
      assert longer == shorter + [x];
      assert longer[..|longer| - 1] == shorter && longer[|longer| - 1] == x;
      FirstsMembers(shorter);
      var g := if f < m + k - 1 then m + k - 1 else f;
      assert Firsts(shorter) == staged[..g];
      assert x in staged[..g] <==> m + k - 1 < g;
      if g == m + k - 1 { assert staged[..g] + [x] == staged[..g + 1]; }
    }
  }

  function Ids(table: seq<Entry>): seq<nat> {
    seq(|table|, i requires 0 <= i < |table| => table[i].id)
  }

  lemma {:induction false} PendingMembers(table: seq<Entry>)
    ensures forall x :: x in Pending(table) ==> x in Ids(table)
  {
    if table != [] {
      PendingMembers(table[1..]);
      forall x | x in Pending(table) ensures x in Ids(table) {
        if x in Pending(table[1..]) {
          var i :| 0 <= i < |table[1..]| && Ids(table[1..])[i] == x;
          assert Ids(table)[i + 1] == x;
        } else {
          assert Ids(table)[0] == x;
        }
      }
    }
  }

  lemma {:induction false} PendingConcat(a: seq<Entry>, b: seq<Entry>)
    ensures Pending(a + b) == Pending(a) + Pending(b)
  {
    if a == [] {
      assert a + b == b;
    } else {
      PendingConcat(a[1..], b);
      assert (a + b)[1..] == a[1..] + b && (a + b)[0] == a[0];
      var head := if a[0].publishedAt.None? then [a[0].id] else [];
      assert Pending(a) == head + Pending(a[1..]);
      assert Pending(a + b) == head + (Pending(a[1..]) + Pending(b));
    }
  }

  // Marking the first `k` pending ids leaves exactly the others pending.
  lemma {:induction false} MarkedPending(table: seq<Entry>, k: nat, now: int)
    requires Distinct(Ids(table)) && k <= |Pending(table)|
    ensures Pending(Marked(table, Pending(table)[..k], now)) == Pending(table)[k..]
    decreases |table|
  {
    if table != [] {
      var rest := table[1..];
      forall i, j | 0 <= i < j < |rest| ensures Ids(rest)[i] != Ids(rest)[j] {
        assert Ids(table)[i + 1] != Ids(table)[j + 1];
      }
      var ids := Pending(table)[..k];
      var marked := Marked(table, ids, now);
      PendingMembers(rest);
      forall i | 0 <= i < |rest| ensures rest[i].id != table[0].id {
        assert Ids(table)[0] != Ids(table)[i + 1];
      }
      var open := table[0].publishedAt.None?;
      var k' := if open && k > 0 then k - 1 else k;
      if open && k == 0 {
        assert ids == [] && marked == table;
      } else {
        MarkedPending(rest, k', now);
        assert ids == (if open then [table[0].id] else []) + Pending(rest)[..k'];
        assert forall i :: 0 <= i < |rest| ==> (rest[i].id in ids <==> rest[i].id in Pending(rest)[..k']);
        assert marked[1..] == Marked(rest, Pending(rest)[..k'], now);
        assert open ==> ids[0] == table[0].id;
        assert !open ==> marked[0].publishedAt.Some?;
      }
    }
  }

  lemma {:induction false} KeptMembers(table: seq<Entry>, before: int)
    ensures Pending(Kept(table, before)) == Pending(table)
    ensures forall e :: e in Kept(table, before) ==> e in table
  {
    if table != [] {
      KeptMembers(table[1..], before);
      if Swept(table[0], before) {
        assert Kept(table, before) == Kept(table[1..], before);
      } else {
        assert Kept(table, before)[1..] == Kept(table[1..], before);
      }
    }
  }

  // Distinct ids, said of entries.
  ghost predicate IdsDiffer(table: seq<Entry>) {
    forall i, j :: 0 <= i < j < |table| ==> table[i].id != table[j].id
  }

  lemma {:induction false} KeptIdsDiffer(table: seq<Entry>, before: int)
    requires IdsDiffer(table)
    ensures IdsDiffer(Kept(table, before))
  {
    if table != [] {
      var rest := Kept(table[1..], before);
      KeptIdsDiffer(table[1..], before);
      KeptMembers(table[1..], before);
      forall j | 0 <= j < |rest| ensures rest[j].id != table[0].id { assert rest[j] in table[1..]; }
    }
  }

  lemma KeptFacts(table: seq<Entry>, before: int)
    requires Distinct(Ids(table))
    ensures Pending(Kept(table, before)) == Pending(table)
    ensures Distinct(Ids(Kept(table, before)))
    ensures forall e :: e in Kept(table, before) ==> e in table
  {
    forall i, j | 0 <= i < j < |table| ensures table[i].id != table[j].id {
      assert Ids(table)[i] != Ids(table)[j];
    }
    KeptMembers(table, before);
    KeptIdsDiffer(table, before);
  }

  // `m` rows are marked and `f` have been published at least once, both counted from the oldest.
  ghost predicate InOrder(s: State, m: nat, f: nat) {
    && Distinct(s.staged) && Distinct(Ids(s.table))
    && (forall e :: e in s.table ==> e.id in s.staged)
    && m <= f <= |s.staged|
    && Pending(s.table) == s.staged[m..]
    && Firsts(s.log) == s.staged[..f]
  }

  lemma InOrderStep(s: State, e: Event, m: nat, f: nat) returns (m': nat, f': nat)
    requires InOrder(s, m, f) && Allowed(s, e)
    ensures InOrder(Next(s, e), m', f')
  {
    var s' := Next(s, e);
    m', f' := m, f;
    match e
    case Stage(id) => InOrderStage(s, id, m, f);
    case Pass(_, _, _, _, _) => m', f' := InOrderPass(s, e, m, f);
    case Prune(before) =>
      KeptFacts(s.table, before);
  }

  lemma InOrderStage(s: State, id: nat, m: nat, f: nat)
    requires InOrder(s, m, f) && id !in s.staged
    ensures InOrder(Next(s, Stage(id)), m, f)
  {
    var s' := Next(s, Stage(id));
    PendingConcat(s.table, [Entry(id, None)]);
    assert s'.staged[m..] == s.staged[m..] + [id];
    assert s'.staged[..f] == s.staged[..f];
    forall i, j | 0 <= i < j < |s'.table| ensures Ids(s'.table)[i] != Ids(s'.table)[j] {
      if j < |s.table| {
        assert Ids(s.table)[i] != Ids(s.table)[j];
      } else {
        assert s.table[i] in s.table;
      }
    }
  }

  // What a batch is in terms of the staging order.
  lemma BatchIsStretch(s: State, m: nat, f: nat, limit: nat, k: nat)
    requires InOrder(s, m, f) && k <= |Batch(s.table, limit)|
    ensures m + k <= |s.staged| && k <= |Pending(s.table)|
    ensures Batch(s.table, limit)[..k] == Pending(s.table)[..k] == s.staged[m..m + k]
  {}

  // The mark of a pass.
  lemma MarkedInOrder(s: State, m: nat, f: nat, count: nat, now: int, table: seq<Entry>)
    requires InOrder(s, m, f) && count <= |Pending(s.table)| && table == Marked(s.table, Pending(s.table)[..count], now)
    ensures Pending(table) == s.staged[m + count..] && Distinct(Ids(table))
    ensures forall x :: x in table ==> x.id in s.staged
  {
    MarkedPending(s.table, count, now);
    assert s.staged[m..][count..] == s.staged[m + count..];
    assert Ids(table) == Ids(s.table);
    forall x | x in table ensures x.id in s.staged {
      var i :| 0 <= i < |table| && table[i] == x;
      assert s.table[i] in s.table;
    }
  }

  function Further(f: nat, n: nat): nat { if f < n then n else f }

  lemma PassUnmarked(s: State, s': State, taken: nat, m: nat, f: nat)
    requires InOrder(s, m, f) && m + taken <= |s.staged|
    requires s' == s.(log := s.log + s.staged[m..m + taken])
    ensures InOrder(s', m, Further(f, m + taken))
  {
    FirstsExtend(s.log, s.staged, f, m, taken);
  }

  lemma PassMarked(s: State, s': State, count: nat, taken: nat, now: int, m: nat, f: nat)
    requires InOrder(s, m, f) && count <= taken && m + taken <= |s.staged| && count <= |Pending(s.table)|
    requires s'.table == Marked(s.table, Pending(s.table)[..count], now)
    requires s'.staged == s.staged && s'.log == s.log + s.staged[m..m + taken]
    ensures InOrder(s', m + count, Further(f, m + taken))
  {
    FirstsExtend(s.log, s.staged, f, m, taken);
    MarkedInOrder(s, m, f, count, now, s'.table);
  }

  lemma InOrderPass(s: State, e: Event, m: nat, f: nat) returns (m': nat, f': nat)
    requires InOrder(s, m, f) && e.Pass? && Allowed(s, e)
    ensures InOrder(Next(s, e), m', f')
  {
    BatchIsStretch(s, m, f, e.limit, e.taken);
    f' := Further(f, m + e.taken);
    if e.marks {
      BatchIsStretch(s, m, f, e.limit, e.count);
      m' := m + e.count;
      PassMarked(s, Next(s, e), e.count, e.taken, e.now, m, f);
    } else {
      m' := m;
      PassUnmarked(s, Next(s, e), e.taken, m, f);
    }
  }

  lemma {:induction false} InOrderAlways(events: seq<Event>, s: State, s': State, m: nat, f: nat)
    returns (m': nat, f': nat)
    requires Runs(events, s, s') && InOrder(s, m, f)
    ensures InOrder(s', m', f')
    decreases |events|
  {
    m', f' := m, f;
    if events != [] {
      m', f' := InOrderStep(s, events[0], m, f);
      m', f' := InOrderAlways(events[1..], Next(s, events[0]), s', m', f');
    }
  }

  /** Relay order: whatever passes, publishes that failed but landed, deaths before the mark, sweeps and
      new firings a run contains, the ids reach the broker for the first time in exactly the order
      they were staged, with none skipped. */
  lemma FirstPublicationsInOrder(events: seq<Event>, s: State)
    requires Runs(events, State([], [], []), s)
    ensures exists f :: 0 <= f <= |s.staged| && Firsts(s.log) == s.staged[..f]
  {
    var m, f := InOrderAlways(events, State([], [], []), s, 0, 0);
  }

  // ---- Drain ----

  function Passes(table: seq<Entry>, limit: nat, now: int, n: nat): seq<Entry> {
    if n == 0 then table else
    var before := Passes(table, limit, now, n - 1);
    Marked(before, Batch(before, limit), now)
  }

  function Dropped(ids: seq<nat>, n: nat): seq<nat> {
    if n <= |ids| then ids[n..] else []
  }

  lemma DroppedTwice(ids: seq<nat>, m: nat, n: nat)
    ensures Dropped(Dropped(ids, m), n) == Dropped(ids, m + n)
  {}

  lemma PassDrops(table: seq<Entry>, limit: nat, now: int)
    requires Distinct(Ids(table))
    ensures var after := Marked(table, Batch(table, limit), now);
            Pending(after) == Dropped(Pending(table), limit) && Ids(after) == Ids(table)
  {
    var batch := Batch(table, limit);
    assert batch == Pending(table)[..|batch|];
    MarkedPending(table, |batch|, now);
  }

  lemma {:induction false} PassesDrop(table: seq<Entry>, limit: nat, now: int, n: nat)
    requires Distinct(Ids(table))
    ensures Pending(Passes(table, limit, now, n)) == Dropped(Pending(table), n * limit)
    ensures Ids(Passes(table, limit, now, n)) == Ids(table)
  {
    if n > 0 {
      PassesDrop(table, limit, now, n - 1);
      PassDrops(Passes(table, limit, now, n - 1), limit, now);
      Times(n, limit);
      DroppedTwice(Pending(table), (n - 1) * limit, limit);
    }
  }

  /** Without failures, `n` passes empty the outbox exactly when n * batch covers what was pending,
      that is, after pending / batch passes rounded up; short of that, they leave its youngest rows. */
  lemma DrainsInCeilingPasses(table: seq<Entry>, limit: nat, now: int, n: nat)
    requires Distinct(Ids(table))
    ensures Pending(Passes(table, limit, now, n)) == [] <==> |Pending(table)| <= n * limit
    ensures n * limit <= |Pending(table)| ==>
              Pending(Passes(table, limit, now, n)) == Pending(table)[n * limit..]
    ensures Ids(Passes(table, limit, now, n)) == Ids(table)
  {
    PassesDrop(table, limit, now, n);
  }

  lemma Times(n: nat, limit: nat)
    requires n > 0
    ensures n * limit == (n - 1) * limit + limit && (n - 1) * limit >= 0
  {}
}
