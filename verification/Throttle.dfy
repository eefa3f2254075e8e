/** The rate limiter's storage: a fixed-window hit counter and a block key, both expiring, updated by
    one script per request. Times and durations are in milliseconds. */
module Throttle {
  import opened Domain

  datatype Counter = Counter(hits: nat, expiresAt: int)

  // The two keys of one client under one throttler; the block key only carries its expiry.
  datatype Keys = Keys(counter: Option<Counter>, block: Option<int>)

  const NO_KEYS := Keys(None, None)

  // What the script returns.
  datatype Reply = Reply(hits: nat, windowTtl: int, blockTtl: int) {
    predicate Blocked() { blockTtl > 0 }
  }

  // What the guard is told, in whole seconds.
  datatype Record = Record(totalHits: nat, timeToExpire: nat, isBlocked: bool, timeToBlockExpire: nat)

  // A zero block duration means: as long as the window.
  datatype Limits = Limits(ttl: int, limit: nat, blockDuration: int) {
    function BlockMs(): int { if blockDuration == 0 then ttl else blockDuration }
    predicate Sound() { ttl >= 1 && blockDuration >= 0 }
  }

  function ToSeconds(ms: int): nat {
    if ms > 0 then (ms + 999) / 1000 else 0
  }

  // The least whole number of seconds that covers `ms` milliseconds; none when no time is left.
  predicate Covers(seconds: nat, ms: int) {
    if ms <= 0 then seconds == 0 else 1000 * (seconds - 1) < ms <= 1000 * seconds
  }

  // The counter once this request is in it; a key outlives the millisecond it expires at.
  function Counted(keys: Keys, ttl: int, now: int): Counter {
    if keys.counter.Some? && now <= keys.counter.value.expiresAt && keys.counter.value.hits > 0
    then Counter(keys.counter.value.hits + 1, keys.counter.value.expiresAt)
    else Counter(1, now + ttl)
  }

  predicate BlockLive(keys: Keys, now: int) {
    keys.block.Some? && now < keys.block.value
  }

  // An expiry that is not in the future deletes the key on the spot.
  function Stored(counter: Counter, ttl: int): Option<Counter> {
    if counter.hits == 1 && ttl <= 0 then None else Some(counter)
  }

  predicate Overruns(keys: Keys, lim: Limits, now: int) {
    !BlockLive(keys, now) && Counted(keys, lim.ttl, now).hits > lim.limit
  }

  // Redis refuses to set a key that has already expired, and the script dies there.
  predicate ScriptFails(keys: Keys, lim: Limits, now: int) {
    Overruns(keys, lim, now) && lim.BlockMs() <= 0
  }

  function KeysAfter(keys: Keys, lim: Limits, now: int): Keys {
    Keys(Stored(Counted(keys, lim.ttl, now), lim.ttl),
         if Overruns(keys, lim, now) && lim.BlockMs() > 0 then Some(now + lim.BlockMs()) else keys.block)
  }

  // PTTL of a missing key is -2.
  function ReplyTo(keys: Keys, lim: Limits, now: int): Reply {
    var counter := Counted(keys, lim.ttl, now);
    Reply(counter.hits,
          if Stored(counter, lim.ttl).None? then -2 else counter.expiresAt - now,
          if BlockLive(keys, now) then keys.block.value - now
          else if counter.hits > lim.limit then lim.BlockMs()
          else 0)
  }

  function Reported(reply: Reply): Record {
    Record(reply.hits, ToSeconds(reply.windowTtl), reply.Blocked(), ToSeconds(reply.blockTtl))
  }

  class ThrottlerStorage {
    var keys: map<string, Keys>

    constructor ()
      ensures keys == map[]
    {
      keys := map[];
    }

    function Of(key: string): Keys
      reads this
    {
      if key in keys then keys[key] else NO_KEYS
    }

    // The script: count, arm the window on its first hit, then look at the block.
    method Script(key: string, lim: Limits, now: int) returns (reply: Option<Reply>)
      modifies this
      ensures Of(key) == KeysAfter(old(Of(key)), lim, now)
      ensures reply == if ScriptFails(old(Of(key)), lim, now) then None else Some(ReplyTo(old(Of(key)), lim, now))
      ensures keys - {key} == old(keys) - {key}
    {
      var mine := Of(key);
      var counter := mine.counter;
      var hits := 1;
      if counter.Some? && now <= counter.value.expiresAt {
        hits := counter.value.hits + 1;
        counter := Some(counter.value.(hits := hits));
      }
      if hits == 1 {
        counter := if lim.ttl > 0 then Some(Counter(1, now + lim.ttl)) else None;
      }
      keys := keys[key := mine.(counter := counter)];
      var windowTtl := if counter.Some? then counter.value.expiresAt - now else -2;
      if mine.block.Some? && mine.block.value - now > 0 {
        return Some(Reply(hits, windowTtl, mine.block.value - now));
      }
      if hits > lim.limit {
        if lim.BlockMs() <= 0 {
          return None;
        }
        keys := keys[key := Keys(counter, Some(now + lim.BlockMs()))];
        return Some(Reply(hits, windowTtl, lim.BlockMs()));
      }
      return Some(Reply(hits, windowTtl, 0));
    }

    /** Fails open: when the script cannot be run, or dies, the request is let through. */
    method Increment(key: string, lim: Limits, now: int, outcome: Outcome) returns (record: Record)
      modifies this
      ensures Of(key) == if outcome.Lands() then KeysAfter(old(Of(key)), lim, now) else old(Of(key))
      ensures record == if outcome.Answered? && !ScriptFails(old(Of(key)), lim, now)
                        then Reported(ReplyTo(old(Of(key)), lim, now))
                        else Record(0, ToSeconds(lim.ttl), false, 0)
      ensures keys - {key} == old(keys) - {key}
      // Told from the keys the call leaves behind: blocked exactly while a block stands, for as many
      // whole seconds as cover what is left of it; the window likewise.
      ensures outcome.Answered? && lim.Sound() ==>
                var after := Of(key);
                && after.counter.Some? && record.totalHits == after.counter.value.hits
                && Covers(record.timeToExpire, after.counter.value.expiresAt - now)
                && (record.isBlocked <==> BlockLive(after, now)) && (record.isBlocked <==> record.timeToBlockExpire > 0)
                && (record.isBlocked ==> Covers(record.timeToBlockExpire, after.block.value - now))
      // A request over the limit is blocked; unless a block already stood, for the duration configured.
      ensures outcome.Answered? && lim.Sound() && record.totalHits > lim.limit ==>
                && record.isBlocked
                && (!BlockLive(old(Of(key)), now) ==>
                      Of(key).block == Some(now + if lim.blockDuration != 0 then lim.blockDuration else lim.ttl))
      // Unreachable: let through, with nothing claimed about the client.
      ensures !outcome.Answered? ==> !record.isBlocked && record.totalHits == 0
    {
      if outcome.Lands() {
        var reply := Script(key, lim, now);
        if outcome.Answered? && reply.Some? {
          return Reported(reply.value);
        }
      }
      return Record(0, ToSeconds(lim.ttl), false, 0);
    }
  }

  // ---- A client's requests over time ----

  ghost predicate InOrder(times: seq<int>) {
    forall i, j :: 0 <= i <= j < |times| ==> times[i] <= times[j]
  }

  // The keys after the first `n` requests.
  function KeysAt(lim: Limits, times: seq<int>, n: nat): Keys
    requires n <= |times|
  {
    if n == 0 then NO_KEYS else KeysAfter(KeysAt(lim, times, n - 1), lim, times[n - 1])
  }

  function ReplyAt(lim: Limits, times: seq<int>, i: nat): Reply
    requires i < |times|
  {
    ReplyTo(KeysAt(lim, times, i), lim, times[i])
  }

  // What the guard is told about request `i`.
  function RecordAt(lim: Limits, times: seq<int>, i: nat): Record
    requires i < |times|
  {
    Reported(ReplyAt(lim, times, i))
  }

  // The guard lets request `i` through.
  predicate Passed(lim: Limits, times: seq<int>, i: int) {
    0 <= i < |times| && !RecordAt(lim, times, i).isBlocked
  }

  /** Windows by the calendar alone: a request opens one when the previous window, which runs for
      `ttl` from the request that opened it, is over. */
  function Opener(ttl: int, times: seq<int>, i: nat): nat
    requires i < |times|
    ensures Opener(ttl, times, i) <= i
  {
    if i == 0 then 0
    else
      var before := Opener(ttl, times, i - 1);
      if times[i] <= times[before] + ttl then before else i
  }

  // The counter holds the requests since the window opened.
  lemma {:induction false} CountsTheWindow(lim: Limits, times: seq<int>, i: nat)
    requires lim.Sound() && i < |times|
    ensures var first := Opener(lim.ttl, times, i);
            KeysAt(lim, times, i + 1).counter == Some(Counter(i - first + 1, times[first] + lim.ttl))
  {
    if i > 0 {
      CountsTheWindow(lim, times, i - 1);
    } else {
      assert KeysAt(lim, times, 0) == NO_KEYS;
    }
  }

  lemma PassedEarly(lim: Limits, times: seq<int>, i: nat)
    requires lim.Sound() && Passed(lim, times, i)
    ensures i - Opener(lim.ttl, times, i) < lim.limit
  {
    CountsTheWindow(lim, times, i);
    assert KeysAt(lim, times, i + 1) == KeysAfter(KeysAt(lim, times, i), lim, times[i]);
  }

  // The requests of the window opened by `first` that were let through.
  ghost function PassedIn(lim: Limits, times: seq<int>, first: nat): set<int> {
    set i | 0 <= i < |times| && Passed(lim, times, i) && Opener(lim.ttl, times, i) == first
  }

  ghost function PassedBetween(lim: Limits, times: seq<int>, from: int, to: int): set<int> {
    set i | 0 <= i < |times| && Passed(lim, times, i) && from <= times[i] <= to
  }

  ghost function Range(lo: int, n: nat): (range: set<int>)
    ensures |range| == n && forall i :: i in range <==> lo <= i < lo + n
  {
    if n == 0 then {} else Range(lo, n - 1) + {lo + n - 1}
  }

  lemma SubsetSize(a: set<int>, b: set<int>)
    requires a <= b
    ensures |a| <= |b|
  {
    assert b == a + (b - a);
  }

  /** At most `limit` requests of any window are let through. */
  lemma WindowBound(lim: Limits, times: seq<int>, first: nat)
    requires lim.Sound()
    ensures |PassedIn(lim, times, first)| <= lim.limit
  {
    forall i | i in PassedIn(lim, times, first) ensures i in Range(first, lim.limit) {
      PassedEarly(lim, times, i);
    }
    SubsetSize(PassedIn(lim, times, first), Range(first, lim.limit));
  }

  // Two windows opened by different requests are more than `ttl` apart.
  lemma {:induction false} OpenersApart(ttl: int, times: seq<int>, i: nat, j: nat)
    requires ttl >= 1 && InOrder(times) && i <= j < |times| && Opener(ttl, times, i) != Opener(ttl, times, j)
    ensures i < Opener(ttl, times, j)
    ensures times[Opener(ttl, times, i)] + ttl < times[Opener(ttl, times, j)]
    decreases j
  {
    if i < j && Opener(ttl, times, j) != j {
      OpenersApart(ttl, times, i, j - 1);
    } else if i < j && Opener(ttl, times, i) != Opener(ttl, times, j - 1) {
      OpenersApart(ttl, times, i, j - 1);
      var before := Opener(ttl, times, j - 1);
      assert times[before] <= times[before] + ttl < times[j];
    }
  }

  /** Throttle bound: any stretch of `ttl`, both ends included, lets at most twice the limit through. */
  lemma IntervalBound(lim: Limits, times: seq<int>, from: int)
    requires lim.Sound() && InOrder(times)
    ensures |PassedBetween(lim, times, from, from + lim.ttl)| <= 2 * lim.limit
  {
    var passed := PassedBetween(lim, times, from, from + lim.ttl);
    if some :| some in passed {
      var least := Least(passed, some);
      var first := Opener(lim.ttl, times, least);
      var later := set i | i in passed && Opener(lim.ttl, times, i) != first;
      WindowBound(lim, times, first);
      if later == {} {
        forall i | i in passed ensures i in PassedIn(lim, times, first) { assert i !in later; }
        SubsetSize(passed, PassedIn(lim, times, first));
      } else {
        var j :| j in later;
        var second := Opener(lim.ttl, times, j);
        forall k | k in later ensures Opener(lim.ttl, times, k) == second {
          SecondWindow(lim, times, from, least, j, k);
        }
        WindowBound(lim, times, second);
        SubsetSize(passed, PassedIn(lim, times, first) + PassedIn(lim, times, second));
      }
    }
  }

  lemma {:induction false} Least(s: set<int>, some: int) returns (least: int)
    requires some in s
    ensures least in s && forall i :: i in s ==> least <= i
  {
    least := some;
    assert forall i :: i in s ==> i == some || i in s - {some};
    if other :| other in s - {some} {
      var rest := Least(s - {some}, other);
      if rest < least { least := rest; }
    }
  }

  lemma SecondWindow(lim: Limits, times: seq<int>, from: int, least: nat, j: nat, k: nat)
    requires lim.Sound() && InOrder(times) && least <= j < |times| && least <= k < |times|
    requires from <= times[least] && times[j] <= from + lim.ttl && times[k] <= from + lim.ttl
    requires Opener(lim.ttl, times, j) != Opener(lim.ttl, times, least)
    requires Opener(lim.ttl, times, k) != Opener(lim.ttl, times, least)
    ensures Opener(lim.ttl, times, j) == Opener(lim.ttl, times, k)
  {
    OpenersApart(lim.ttl, times, least, j);
    OpenersApart(lim.ttl, times, least, k);
    if Opener(lim.ttl, times, j) != Opener(lim.ttl, times, k) {
      if j <= k { OpenersApart(lim.ttl, times, j, k); } else { OpenersApart(lim.ttl, times, k, j); }
      assert false;
    }
  }

  // ---- Blocks ----

  // Once reported, a block stands for exactly as long as was reported.
  lemma {:induction false} BlockStands(lim: Limits, times: seq<int>, i: nat, n: nat)
    requires lim.Sound() && InOrder(times) && i < n <= |times| && ReplyAt(lim, times, i).Blocked()
    requires times[n - 1] < times[i] + ReplyAt(lim, times, i).blockTtl
    ensures KeysAt(lim, times, n).block == Some(times[i] + ReplyAt(lim, times, i).blockTtl)
    decreases n
  {
    if n > i + 1 {
      BlockStands(lim, times, i, n - 1);
    }
  }

  /** A client told it is blocked is blocked on every request until the block it was told of is up: for
      at least one second less than the whole seconds it was given, and until the same instant. */
  lemma BlockedThroughout(lim: Limits, times: seq<int>, i: nat, j: nat)
    requires lim.Sound() && InOrder(times) && i <= j < |times| && RecordAt(lim, times, i).isBlocked
    requires || times[j] < times[i] + ReplyAt(lim, times, i).blockTtl
             || times[j] <= times[i] + 1000 * (RecordAt(lim, times, i).timeToBlockExpire - 1)
    ensures RecordAt(lim, times, j).isBlocked
    ensures times[j] + ReplyAt(lim, times, j).blockTtl == times[i] + ReplyAt(lim, times, i).blockTtl
  {
    if i < j {
      BlockStands(lim, times, i, j);
    }
  }

  /** An overrun blocks: a request that comes after `limit` others of its window is reported blocked, and
      if no block stood, so is every request before the configured duration is up. */
  lemma OverrunBlocks(lim: Limits, times: seq<int>, i: nat, j: nat)
    requires lim.Sound() && InOrder(times) && i <= j < |times| && i - Opener(lim.ttl, times, i) >= lim.limit
    ensures RecordAt(lim, times, i).isBlocked && RecordAt(lim, times, i).totalHits == i - Opener(lim.ttl, times, i) + 1
    ensures !BlockLive(KeysAt(lim, times, i), times[i])
            && times[j] < times[i] + (if lim.blockDuration != 0 then lim.blockDuration else lim.ttl) ==>
              RecordAt(lim, times, j).isBlocked
  {
    CountsTheWindow(lim, times, i);
    assert KeysAt(lim, times, i + 1) == KeysAfter(KeysAt(lim, times, i), lim, times[i]);
    if !BlockLive(KeysAt(lim, times, i), times[i])
       && times[j] < times[i] + (if lim.blockDuration != 0 then lim.blockDuration else lim.ttl) {
      BlockedThroughout(lim, times, i, j);
    }
  }

  // Where a block key came from.
  lemma {:induction false} BlockHasCause(lim: Limits, times: seq<int>, n: nat) returns (k: nat)
    requires lim.Sound() && n <= |times| && KeysAt(lim, times, n).block.Some?
    ensures k < n && ReplyAt(lim, times, k).hits > lim.limit
    ensures KeysAt(lim, times, n).block == Some(times[k] + lim.BlockMs())
    decreases n
  {
    if KeysAt(lim, times, n - 1).block == KeysAt(lim, times, n).block {
      k := BlockHasCause(lim, times, n - 1);
    } else {
      k := n - 1;
    }
  }

  /** Nobody is blocked without having overrun a window at most one block duration before. */
  lemma BlockedForACause(lim: Limits, times: seq<int>, i: nat) returns (k: nat)
    requires lim.Sound() && i < |times| && RecordAt(lim, times, i).isBlocked
    ensures k <= i && times[i] < times[k] + lim.BlockMs()
    ensures k - Opener(lim.ttl, times, k) >= lim.limit
  {
    if BlockLive(KeysAt(lim, times, i), times[i]) {
      k := BlockHasCause(lim, times, i);
    } else {
      k := i;
    }
    CountsTheWindow(lim, times, k);
    assert KeysAt(lim, times, k + 1) == KeysAfter(KeysAt(lim, times, k), lim, times[k]);
  }
}
