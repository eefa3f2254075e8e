/** The anti-spam decision and what it adds up to over unbounded evaluation sequences. Times are in
    milliseconds. */
module TriggerStateMachine {
  import opened Domain

  datatype TriggerState = Armed | Fired

  datatype Trigger = Trigger(state: TriggerState, lastFiredAt: Option<int>, cooldownMin: int)

  datatype Reason = Cooldown | QuietWindow

  datatype Decision = Fire | Suppress(reason: Reason) | Rearm | Noop

  function CooldownMs(t: Trigger): int {
    t.cooldownMin * 60_000
  }

  predicate CooldownElapsed(t: Trigger, now: int) {
    t.lastFiredAt.None? || now - t.lastFiredAt.value >= CooldownMs(t)
  }

  function Decide(t: Trigger, matched: bool, now: int, quiet: bool): Decision {
    if !matched then (if t.state == Fired then Rearm else Noop)
    else if !CooldownElapsed(t, now) then Suppress(Cooldown)
    else if quiet then Suppress(QuietWindow)
    else Fire
  }

  /** The decision, outcome by outcome: what the cooldown holds back is never put down to quiet hours. */
  lemma DecisionIff(t: Trigger, matched: bool, now: int, quiet: bool)
    ensures var cooling := t.lastFiredAt.Some? && now - t.lastFiredAt.value < t.cooldownMin * 60_000;
            var decision := Decide(t, matched, now, quiet);
            && (decision == Fire <==> matched && !cooling && !quiet)
            && (decision == Suppress(Cooldown) <==> matched && cooling)
            && (decision == Suppress(QuietWindow) <==> matched && !cooling && quiet)
            && (decision == Rearm <==> !matched && t.state == Fired)
            && (decision == Noop <==> !matched && t.state == Armed)
  {}

  // What the watcher writes back; `stored` is the instant recorded with a firing.
  function Recorded(t: Trigger, decision: Decision, stored: int): Trigger {
    match decision
    case Fire => t.(state := Fired, lastFiredAt := Some(stored))
    case Rearm => t.(state := Armed)
    case _ => t
  }

  // ---- Runs of one trigger, committed at the instant of the decision ----

  datatype Eval = Eval(at: int, matched: bool, quiet: bool)

  // The row before evaluation `n`.
  function Before(t: Trigger, evals: seq<Eval>, n: nat): Trigger
    requires n <= |evals|
  {
    if n == 0 then t else
    var e, row := evals[n - 1], Before(t, evals, n - 1);
    Recorded(row, Decide(row, e.matched, e.at, e.quiet), e.at)
  }

  predicate FiresAt(t: Trigger, evals: seq<Eval>, i: nat)
    requires i < |evals|
  {
    Decide(Before(t, evals, i), evals[i].matched, evals[i].at, evals[i].quiet) == Fire
  }

  /** State meaning: from ARMED, the state is FIRED exactly when some evaluation fired and every later
      one matched. */
  lemma {:induction false} FiredIffNoMissSince(t: Trigger, evals: seq<Eval>, n: nat)
    requires t.state == Armed && n <= |evals|
    ensures Before(t, evals, n).state == Fired <==>
            exists i :: 0 <= i < n && FiresAt(t, evals, i) && forall j :: i < j < n ==> evals[j].matched
  {
    if n > 0 {
      FiredIffNoMissSince(t, evals, n - 1);
      if Before(t, evals, n).state == Fired {
        if FiresAt(t, evals, n - 1) {
        } else {
          var i :| 0 <= i < n - 1 && FiresAt(t, evals, i) && forall j :: i < j < n - 1 ==> evals[j].matched;
          assert evals[n - 1].matched;
        }
      } else {
        forall i | 0 <= i < n && FiresAt(t, evals, i) ensures exists j :: i < j < n && !evals[j].matched {
          if forall j :: i < j < n - 1 ==> evals[j].matched {
            assert i < n - 1 && !evals[n - 1].matched;
          }
        }
      }
    }
  }

  // ---- Greedy is optimal ----

  predicate Eligible(e: Eval) {
    e.matched && !e.quiet
  }

  function Firings(t: Trigger, evals: seq<Eval>, n: nat): seq<nat>
    requires n <= |evals|
  {
    if n == 0 then []
    else Firings(t, evals, n - 1) + (if FiresAt(t, evals, n - 1) then [n - 1] else [])
  }

  ghost predicate InTimeOrder(evals: seq<Eval>) {
    forall i, j :: 0 <= i <= j < |evals| ==> evals[i].at <= evals[j].at
  }

  /** A schedule of deliveries the owner would accept: matched, non-quiet evaluations before `n`, in
      order, any two at least the cooldown apart and apart from an earlier firing on record. */
  ghost predicate Spaced(t: Trigger, evals: seq<Eval>, picks: seq<nat>, n: nat)
    requires n <= |evals|
  {
    && (forall k :: 0 <= k < |picks| ==> picks[k] < n && Eligible(evals[picks[k]]))
    && (forall j, k :: 0 <= j < k < |picks| ==>
          && picks[j] < picks[k]
          && evals[picks[k]].at - evals[picks[j]].at >= CooldownMs(t))
    && (picks != [] ==> CooldownElapsed(t, evals[picks[0]].at))
  }

  // The row remembers the last firing and nothing else about time.
  lemma {:induction false} LastFiring(t: Trigger, evals: seq<Eval>, n: nat)
    requires n <= |evals|
    ensures var f := Firings(t, evals, n);
            && Before(t, evals, n).cooldownMin == t.cooldownMin
            && (forall k :: 0 <= k < |f| ==> f[k] < n)
            && Before(t, evals, n).lastFiredAt ==
               if f == [] then t.lastFiredAt else Some(evals[f[|f| - 1]].at)
  {
    if n > 0 { LastFiring(t, evals, n - 1); }
  }

  // The gate, read off the firings so far.
  ghost predicate Open(t: Trigger, evals: seq<Eval>, f: seq<nat>, at: int)
    requires forall k :: 0 <= k < |f| ==> f[k] < |evals|
  {
    if f == [] then CooldownElapsed(t, at) else at - evals[f[|f| - 1]].at >= CooldownMs(t)
  }

  lemma NextFirings(t: Trigger, evals: seq<Eval>, n: nat) returns (f: seq<nat>, fires: bool)
    requires n < |evals|
    ensures f == Firings(t, evals, n) && forall k :: 0 <= k < |f| ==> f[k] < n
    ensures fires <==> Eligible(evals[n]) && Open(t, evals, f, evals[n].at)
    ensures Firings(t, evals, n + 1) == f + (if fires then [n] else [])
  {
    LastFiring(t, evals, n);
    f, fires := Firings(t, evals, n), FiresAt(t, evals, n);
  }

  lemma OneMore(t: Trigger, evals: seq<Eval>, picks: seq<nat>, n: nat)
    requires n < |evals| && InTimeOrder(evals) && Spaced(t, evals, picks, n) && Eligible(evals[n])
    requires Open(t, evals, picks, evals[n].at)
    ensures Spaced(t, evals, picks + [n], n + 1)
  {}

  lemma Widened(t: Trigger, evals: seq<Eval>, picks: seq<nat>, n: nat)
    requires n < |evals| && Spaced(t, evals, picks, n)
    ensures Spaced(t, evals, picks, n + 1)
  {}

  ghost predicate FiringsSpaced(t: Trigger, evals: seq<Eval>, n: nat)
    requires n <= |evals|
  {
    Spaced(t, evals, Firings(t, evals, n), n)
  }

  lemma SpacedStart(t: Trigger, evals: seq<Eval>)
    ensures FiringsSpaced(t, evals, 0)
  {
    assert Firings(t, evals, 0) == [];
  }

  lemma SpacedStep(t: Trigger, evals: seq<Eval>, n: nat)
    requires n < |evals| && InTimeOrder(evals) && FiringsSpaced(t, evals, n)
    ensures FiringsSpaced(t, evals, n + 1)
  {
    var f, fires := NextFirings(t, evals, n);
    if fires { OneMore(t, evals, f, n); } else { Widened(t, evals, f, n); }
  }

  /** Firings never come closer than the cooldown. */
  lemma FiringsAreSpaced(t: Trigger, evals: seq<Eval>, n: nat)
    requires n <= |evals| && InTimeOrder(evals)
    ensures FiringsSpaced(t, evals, n)
  {
    SpacedStart(t, evals);
    for k := 0 to n
      invariant FiringsSpaced(t, evals, k)
    {
      SpacedStep(t, evals, k);
    }
  }

  // No schedule is longer, and one of the same length ends no earlier.
  ghost predicate Ahead(evals: seq<Eval>, f: seq<nat>, picks: seq<nat>)
    requires forall k :: 0 <= k < |f| ==> f[k] < |evals|
    requires forall k :: 0 <= k < |picks| ==> picks[k] < |evals|
  {
    && |picks| <= |f|
    && (picks != [] && |picks| == |f| ==> evals[f[|f| - 1]].at <= evals[picks[|picks| - 1]].at)
  }

  ghost predicate GreedyAhead(t: Trigger, evals: seq<Eval>, picks: seq<nat>, n: nat)
    requires n <= |evals|
  {
    var f := Firings(t, evals, n);
    && (forall k :: 0 <= k < |f| ==> f[k] < n)
    && (forall k :: 0 <= k < |picks| ==> picks[k] < n)
    && Ahead(evals, f, picks)
  }

  lemma AheadStart(t: Trigger, evals: seq<Eval>, picks: seq<nat>)
    requires Spaced(t, evals, picks, 0)
    ensures GreedyAhead(t, evals, picks, 0)
  {
    assert forall k :: 0 <= k < |picks| ==> picks[k] < 0;
    assert Firings(t, evals, 0) == [];
  }

  lemma AheadSkip(t: Trigger, evals: seq<Eval>, picks: seq<nat>, n: nat)
    requires n < |evals| && InTimeOrder(evals) && GreedyAhead(t, evals, picks, n)
    ensures GreedyAhead(t, evals, picks, n + 1)
  {
    var f, fires := NextFirings(t, evals, n);
  }

  lemma AheadTake(t: Trigger, evals: seq<Eval>, picks: seq<nat>, n: nat)
    requires n < |evals| && InTimeOrder(evals) && Spaced(t, evals, picks, n + 1)
    requires picks != [] && picks[|picks| - 1] == n
    requires GreedyAhead(t, evals, picks[..|picks| - 1], n)
    ensures GreedyAhead(t, evals, picks, n + 1)
  {
    var f, fires := NextFirings(t, evals, n);
    LastPick(t, evals, f, picks, n + 1, fires);
  }

  lemma {:induction false} GreedyStaysAhead(t: Trigger, evals: seq<Eval>, picks: seq<nat>, n: nat)
    requires n <= |evals| && InTimeOrder(evals) && Spaced(t, evals, picks, n)
    ensures GreedyAhead(t, evals, picks, n)
    decreases n
  {
    if n == 0 {
      AheadStart(t, evals, picks);
    } else if picks == [] || picks[|picks| - 1] < n - 1 {
      PicksBelow(t, evals, picks, n);
      GreedyStaysAhead(t, evals, picks, n - 1);
      AheadSkip(t, evals, picks, n - 1);
    } else {
      LastIs(t, evals, picks, n);
      PicksShorter(t, evals, picks, n);
      GreedyStaysAhead(t, evals, picks[..|picks| - 1], n - 1);
      AheadTake(t, evals, picks, n - 1);
    }
  }

  lemma LastIs(t: Trigger, evals: seq<Eval>, picks: seq<nat>, n: nat)
    requires 0 < n <= |evals| && Spaced(t, evals, picks, n) && picks != [] && picks[|picks| - 1] >= n - 1
    ensures picks[|picks| - 1] == n - 1
  {}

  // The last pick is evaluation n-1: either greedy fires there too, or its last firing is too close,
  // which leaves the remaining picks behind.
  lemma LastPick(t: Trigger, evals: seq<Eval>, f: seq<nat>, picks: seq<nat>, n: nat, fires: bool)
    requires 0 < n <= |evals| && InTimeOrder(evals) && Spaced(t, evals, picks, n)
    requires picks != [] && picks[|picks| - 1] == n - 1
    requires forall k :: 0 <= k < |f| ==> f[k] < n - 1
    requires Ahead(evals, f, picks[..|picks| - 1])
    requires fires <==> Open(t, evals, f, evals[n - 1].at)
    ensures Ahead(evals, f + (if fires then [n - 1] else []), picks)
  {
    if !fires && |picks| > 1 {
      assert evals[picks[|picks| - 1]].at - evals[picks[|picks| - 2]].at >= CooldownMs(t);
    }
  }

  lemma PicksBelow(t: Trigger, evals: seq<Eval>, picks: seq<nat>, n: nat)
    requires 0 < n <= |evals| && Spaced(t, evals, picks, n)
    requires picks == [] || picks[|picks| - 1] < n - 1
    ensures Spaced(t, evals, picks, n - 1)
  {}

  lemma PicksShorter(t: Trigger, evals: seq<Eval>, picks: seq<nat>, n: nat)
    requires 0 < n <= |evals| && Spaced(t, evals, picks, n) && picks != []
    ensures Spaced(t, evals, picks[..|picks| - 1], n - 1)
  {
    var fewer := picks[..|picks| - 1];
    forall k | 0 <= k < |fewer| ensures fewer[k] < n - 1 && Eligible(evals[fewer[k]]) {
      assert picks[k] < picks[|picks| - 1];
    }
  }

  /** Greedy optimality: the firings are themselves a schedule spaced by the cooldown, and no such
      schedule over the same evaluations delivers more often. */
  lemma FiringsAreMaximal(t: Trigger, evals: seq<Eval>, picks: seq<nat>)
    requires InTimeOrder(evals) && Spaced(t, evals, picks, |evals|)
    ensures Spaced(t, evals, Firings(t, evals, |evals|), |evals|)
    ensures |picks| <= |Firings(t, evals, |evals|)|
  {
    FiringsAreSpaced(t, evals, |evals|);
    GreedyStaysAhead(t, evals, picks, |evals|);
  }
}
