/** The notification table as a lease: one row per (event, channel), and the five statements
    that touch it. Each statement is a function on the table, used by the protocol in `Delivery`;
    the class `DeliveryTable` is the repository that runs them one after another. */
module DeliveryLog {
  import opened Domain

  datatype Status = Pending | Sent | Failed

  datatype Row = Row(status: Status, claimedAt: Option<int>, deliveredTo: seq<string>)

  type Table = map<Pair, Row>

  datatype ClaimResult = Claimed | Duplicate | InFlight

  // How long a claim is honoured, in milliseconds.
  const CLAIM_LEASE_MS: int := 60_000

  function Inserted(t: Table, p: Pair, now: int): Table {
    t[p := Row(Pending, Some(now), [])]
  }

  // The WHERE clause of the take-over: not sent, and unclaimed or claimed before the cutoff.
  predicate Takeable(t: Table, p: Pair, cutoff: int) {
    && p in t
    && t[p].status != Sent
    && (t[p].claimedAt.None? || t[p].claimedAt.value < cutoff)
  }

  function TakenOver(t: Table, p: Pair, now: int): Table
    requires p in t
  {
    t[p := t[p].(status := Pending, claimedAt := Some(now))]
  }

  // Not fenced to the claimant: any pending row of the pair is released.
  function Released(t: Table, p: Pair): Table {
    if p in t && t[p].status == Pending then t[p := t[p].(claimedAt := None)] else t
  }

  // An unconditional upsert; `claimedAt` and `deliveredTo` survive the update.
  function Settled(t: Table, p: Pair, status: Status): Table {
    t[p := if p in t then t[p].(status := status) else Row(status, None, [])]
  }

  function MarkedDelivered(t: Table, p: Pair, destination: string): Table {
    if p in t then t[p := t[p].(deliveredTo := t[p].deliveredTo + [destination])] else t
  }

  predicate IsSent(t: Table, p: Pair) {
    p in t && t[p].status == Sent
  }

  // What becomes of the three statements of a claim. A unique violation is an answer of the insert.
  datatype ClaimAnswers = ClaimAnswers(insert: Outcome, takeOver: Outcome, read: Outcome) {
    predicate AllAnswered() { insert.Answered? && takeOver.Answered? && read.Answered? }
  }

  // The table after a claim and its result; None when a statement failed towards the caller.
  datatype Claiming = Claiming(log: Table, result: Option<ClaimResult>)

  function ClaimOf(t: Table, p: Pair, now: int, cutoff: int, db: ClaimAnswers): Claiming {
    if p !in t then
      Claiming(if db.insert.Lands() then Inserted(t, p, now) else t,
               if db.insert.Answered? then Some(Claimed) else None)
    else if !db.insert.Answered? then Claiming(t, None)
    else if Takeable(t, p, cutoff) then
      Claiming(if db.takeOver.Lands() then TakenOver(t, p, now) else t,
               if db.takeOver.Answered? then Some(Claimed) else None)
    else if !db.takeOver.Answered? || !db.read.Answered? then Claiming(t, None)
    else Claiming(t, Some(if t[p].status == Sent then Duplicate else InFlight))
  }

  // The row of the pair, and only it, is freshly claimed.
  predicate FreshlyClaimed(t: Table, t': Table, p: Pair, now: int) {
    && p in t' && t'[p].status == Pending && t'[p].claimedAt == Some(now)
    && t'[p].deliveredTo == (if p in t then t[p].deliveredTo else [])
    && t' - {p} == t - {p}
  }

  /** The repository. `Claim` is the three statements in a row (so its read always finds
      the row); the protocol in `Delivery` interleaves them with other consumers instead. */
  class DeliveryTable {
    var rows: Table

    constructor ()
      ensures rows == map[]
    {
      rows := map[];
    }

    method Claim(p: Pair, now: int, cutoff: int, db: ClaimAnswers) returns (result: Option<ClaimResult>)
      modifies this
      ensures Claiming(rows, result) == ClaimOf(old(rows), p, now, cutoff, db)
      ensures rows == old(rows) || FreshlyClaimed(old(rows), rows, p, now)
      ensures result == Some(Claimed) ==>
                (p !in old(rows) || Takeable(old(rows), p, cutoff)) && FreshlyClaimed(old(rows), rows, p, now)
      ensures db.AllAnswered() ==>
                && (result == Some(Claimed) <==> p !in old(rows) || Takeable(old(rows), p, cutoff))
                && (result == Some(Duplicate) <==> IsSent(old(rows), p))
                && result.Some?
      ensures result.Some? && result != Some(Claimed) ==> rows == old(rows)
    {
      if p !in rows {
        if db.insert.Lands() {
          rows := Inserted(rows, p, now);
        }
        return if db.insert.Answered? then Some(Claimed) else None;
      }
      if !db.insert.Answered? {
        return None;
      }
      var count := 0;
      if Takeable(rows, p, cutoff) {
        count := 1;
        if db.takeOver.Lands() {
          rows := TakenOver(rows, p, now);
        }
      }
      if !db.takeOver.Answered? {
        return None;
      }
      if count > 0 {
        return Some(Claimed);
      }
      if !db.read.Answered? {
        return None;
      }
      return Some(if rows[p].status == Sent then Duplicate else InFlight);
    }

    method ReleaseClaim(p: Pair)
      modifies this
      ensures rows == Released(old(rows), p)
      ensures rows.Keys == old(rows).Keys && rows - {p} == old(rows) - {p}
      ensures p in rows ==>
                && (rows[p].claimedAt.None? <==> old(rows)[p].status == Pending || old(rows)[p].claimedAt.None?)
                && rows[p].(claimedAt := old(rows)[p].claimedAt) == old(rows)[p]
    {
      if p in rows && rows[p].status == Pending {
        rows := rows[p := rows[p].(claimedAt := None)];
      }
    }

    method Settle(p: Pair, status: Status)
      modifies this
      ensures rows == Settled(old(rows), p, status)
      ensures p in rows && rows[p].status == status && rows - {p} == old(rows) - {p}
      ensures p in old(rows) ==>
                rows[p].claimedAt == old(rows)[p].claimedAt && rows[p].deliveredTo == old(rows)[p].deliveredTo
      ensures p !in old(rows) ==> rows[p].claimedAt.None? && rows[p].deliveredTo == []
    {
      if p in rows {
        rows := rows[p := rows[p].(status := status)];
      } else {
        rows := rows[p := Row(status, None, [])];
      }
    }

    method DeliveredDestinations(p: Pair) returns (destinations: seq<string>)
      ensures destinations == if p in rows then rows[p].deliveredTo else []
    {
      destinations := if p in rows then rows[p].deliveredTo else [];
    }

    method MarkDelivered(p: Pair, destination: string)
      modifies this
      ensures rows == MarkedDelivered(old(rows), p, destination)
      ensures rows.Keys == old(rows).Keys && rows - {p} == old(rows) - {p}
      ensures p in rows ==>
                && destination in rows[p].deliveredTo && old(rows)[p].deliveredTo <= rows[p].deliveredTo
                && |rows[p].deliveredTo| == |old(rows)[p].deliveredTo| + 1
                && rows[p].status == old(rows)[p].status && rows[p].claimedAt == old(rows)[p].claimedAt
    {
      if p in rows {
        var before := rows[p].deliveredTo;
        rows := rows[p := rows[p].(deliveredTo := before + [destination])];
        assert rows[p].deliveredTo[|before|] == destination;
      }
    }
  }
}
