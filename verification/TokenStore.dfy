/** The refresh-token table: its statements, the auth service's calls on it, and why the nightly sweep
    of expired rows cannot be observed. Signed tokens are opaque values; the stored fingerprint is
    modelled as the token itself, which is what a collision-free hash amounts to. */
module TokenStore {
  import opened Domain

  // A token that passed signature verification.
  datatype Token = Token(jti: nat, sub: nat)

  datatype Row = Row(user: nat, fingerprint: Token, expiresAt: int, revoked: bool)

  type Table = map<nat, Row>

  // ---- Statements ----

  predicate Spendable(t: Table, jti: nat) {
    jti in t && !t[jti].revoked
  }

  // Compare-and-set on one row.
  function Spent(t: Table, jti: nat): Table {
    if Spendable(t, jti) then t[jti := t[jti].(revoked := true)] else t
  }

  function FamilyRevoked(t: Table, user: nat): Table {
    map j | j in t :: if t[j].user == user then t[j].(revoked := true) else t[j]
  }

  function Inserted(t: Table, token: Token, expiresAt: int): Table {
    t[token.jti := Row(token.sub, token, expiresAt, false)]
  }

  function Swept(t: Table, now: int): Table {
    map j | j in t && t[j].expiresAt >= now :: t[j]
  }

  // ---- Calls ----

  datatype Verdict = Reject | Reuse(user: nat) | Rotate

  // What `refresh` finds when it looks the token up.
  function Lookup(t: Table, token: Token, now: int): Verdict {
    if token.jti !in t || t[token.jti].expiresAt < now then Reject
    else if t[token.jti].fingerprint != token then Reject
    else if t[token.jti].revoked then Reuse(t[token.jti].user)
    else Rotate
  }

  datatype Call =
    | SignIn(user: nat, jti: nat, ttl: nat)
    | Refresh(token: Token, jti: nat, ttl: nat)
    | Logout(token: Token)
    | ResetPassword(user: nat)
    | Prune

  datatype Answer = Issued(token: Token) | Unauthorized | Done

  function Effect(t: Table, call: Call, now: int): Table {
    match call
    case SignIn(user, jti, ttl) => Inserted(t, Token(jti, user), now + ttl)
    case Refresh(token, jti, ttl) => (
      match Lookup(t, token, now)
      case Reject => t
      case Reuse(user) => FamilyRevoked(t, user)
      case Rotate => Inserted(Spent(t, token.jti), Token(jti, token.sub), now + ttl))
    case Logout(token) => Spent(t, token.jti)
    case ResetPassword(user) => FamilyRevoked(t, user)
    case Prune => Swept(t, now)
  }

  function AnswerOf(t: Table, call: Call, now: int): Answer {
    match call
    case SignIn(user, jti, ttl) => Issued(Token(jti, user))
    case Refresh(token, jti, ttl) =>
      if Lookup(t, token, now) == Rotate then Issued(Token(jti, token.sub)) else Unauthorized
    case _ => Done
  }

  // The table knows this very token, and it has not expired.
  predicate Presentable(t: Table, token: Token, now: int) {
    token.jti in t && t[token.jti].fingerprint == token && t[token.jti].expiresAt >= now
  }

  class RefreshTokens {
    var rows: Table

    constructor ()
      ensures rows == map[]
    {
      rows := map[];
    }

    /** `jti` is the fresh id the new token would carry. */
    method Refresh(token: Token, jti: nat, ttl: nat, now: int) returns (answer: Answer)
      modifies this
      ensures answer == AnswerOf(old(rows), Call.Refresh(token, jti, ttl), now)
      ensures rows == Effect(old(rows), Call.Refresh(token, jti, ttl), now)
      // A new token exactly for the genuine, unexpired, unspent one.
      ensures answer == (if Presentable(old(rows), token, now) && !old(rows)[token.jti].revoked
                         then Issued(Token(jti, token.sub)) else Unauthorized)
      // An exchange spends the old token, makes the new one live and touches nothing else.
      ensures answer.Issued? ==>
                && jti in rows && rows[jti] == Row(token.sub, Token(jti, token.sub), now + ttl, false)
                && rows.Keys == old(rows).Keys + {jti}
                && forall j :: j in old(rows) && j != jti ==>
                     rows[j] == if j == token.jti then old(rows)[j].(revoked := true) else old(rows)[j]
      ensures answer.Issued? && jti != token.jti ==> !Spendable(rows, token.jti)
      // A replay revokes its user's rows; anything else changes nothing.
      ensures Presentable(old(rows), token, now) && old(rows)[token.jti].revoked ==>
                && rows.Keys == old(rows).Keys
                && forall j :: j in rows ==>
                     rows[j] == if old(rows)[j].user == old(rows)[token.jti].user
                                then old(rows)[j].(revoked := true) else old(rows)[j]
      ensures !Presentable(old(rows), token, now) ==> rows == old(rows)
    {
      if token.jti !in rows || rows[token.jti].expiresAt < now {
        return Unauthorized;
      }
      var row := rows[token.jti];
      if row.fingerprint != token {
        return Unauthorized;
      }
      if row.revoked {
        RevokeFamily(row.user);
        return Unauthorized;
      }
      // Losing the compare-and-set takes a concurrent request; `RefreshRotation` has that branch.
      rows := Spent(rows, token.jti);
      rows := Inserted(rows, Token(jti, token.sub), now + ttl);
      return Issued(Token(jti, token.sub));
    }

    method RevokeFamily(user: nat)
      modifies this
      ensures rows == FamilyRevoked(old(rows), user)
      ensures rows.Keys == old(rows).Keys
      ensures forall j :: j in rows ==>
                && (rows[j].revoked <==> old(rows)[j].revoked || old(rows)[j].user == user)
                && rows[j].(revoked := old(rows)[j].revoked) == old(rows)[j]
    {
      rows := FamilyRevoked(rows, user);
    }

    method Logout(token: Token)
      modifies this
      ensures rows == Effect(old(rows), Call.Logout(token), 0)
      ensures rows.Keys == old(rows).Keys && !Spendable(rows, token.jti)
      ensures forall j :: j in rows ==>
                rows[j] == if j == token.jti then old(rows)[j].(revoked := true) else old(rows)[j]
    {
      if Spendable(rows, token.jti) {
        rows := rows[token.jti := rows[token.jti].(revoked := true)];
      }
    }

    method PruneStaleTokens(now: int)
      modifies this
      ensures rows == Effect(old(rows), Prune, now)
      ensures forall j :: j in rows <==> j in old(rows) && old(rows)[j].expiresAt >= now
      ensures forall j :: j in rows ==> rows[j] == old(rows)[j]
    {
      rows := Swept(rows, now);
    }
  }

  // ---- The sweep is invisible ----

  datatype Timed = Timed(call: Call, at: int)

  function After(t: Table, calls: seq<Timed>): Table {
    if calls == [] then t
    else Effect(After(t, calls[..|calls| - 1]), calls[|calls| - 1].call, calls[|calls| - 1].at)
  }

  // The answers to everything but the sweeps.
  function Answers(t: Table, calls: seq<Timed>): seq<Answer> {
    if calls == [] then []
    else
      var last := calls[|calls| - 1];
      Answers(t, calls[..|calls| - 1])
      + if last.call == Prune then [] else [AnswerOf(After(t, calls[..|calls| - 1]), last.call, last.at)]
  }

  function WithoutPrunes(calls: seq<Timed>): seq<Timed> {
    if calls == [] then []
    else WithoutPrunes(calls[..|calls| - 1]) + if calls[|calls| - 1].call == Prune then [] else [calls[|calls| - 1]]
  }

  ghost predicate InTimeOrder(calls: seq<Timed>) {
    forall i, j :: 0 <= i <= j < |calls| ==> calls[i].at <= calls[j].at
  }

  /** The swept table is the unswept one less some rows that expired before `now`. */
  ghost predicate SweptOf(swept: Table, full: Table, now: int) {
    && (forall j :: j in swept ==> j in full && swept[j] == full[j])
    && (forall j :: j in full && j !in swept ==> full[j].expiresAt < now)
  }

  lemma SameAnswer(swept: Table, full: Table, call: Call, now: int)
    requires SweptOf(swept, full, now) && call != Prune
    ensures AnswerOf(swept, call, now) == AnswerOf(full, call, now)
    ensures SweptOf(Effect(swept, call, now), Effect(full, call, now), now)
  {
    match call
    case Refresh(token, jti, ttl) =>
      assert Lookup(swept, token, now) == Lookup(full, token, now);
    case _ =>
  }

  lemma {:induction false} SweptRuns(t: Table, calls: seq<Timed>, now: int)
    requires InTimeOrder(calls) && (calls != [] ==> calls[|calls| - 1].at <= now)
    ensures SweptOf(After(t, calls), After(t, WithoutPrunes(calls)), now)
    ensures Answers(t, calls) == Answers(t, WithoutPrunes(calls))
    decreases |calls|
  {
    if calls != [] {
      var before, last := calls[..|calls| - 1], calls[|calls| - 1];
      SweptRuns(t, before, last.at);
      var swept, full := After(t, before), After(t, WithoutPrunes(before));
      var kept := WithoutPrunes(calls);
      if last.call == Prune {
        assert kept == WithoutPrunes(before);
      } else {
        assert kept[..|kept| - 1] == WithoutPrunes(before) && kept[|kept| - 1] == last;
        SameAnswer(swept, full, last.call, last.at);
      }
    }
  }

  /** Sweep is invisible: with a monotone clock, running the prune any number of times, anywhere among
      sign-ins, refreshes, logouts and resets, changes no answer, and afterwards every row that has
      not expired is there with the same revocation flag as if nothing had ever been pruned. */
  lemma SweepIsInvisible(t: Table, calls: seq<Timed>, now: int)
    requires InTimeOrder(calls) && forall i :: 0 <= i < |calls| ==> calls[i].at <= now
    ensures Answers(t, calls) == Answers(t, WithoutPrunes(calls))
    ensures forall j :: j in After(t, WithoutPrunes(calls)) && After(t, WithoutPrunes(calls))[j].expiresAt >= now ==>
              j in After(t, calls) && After(t, calls)[j] == After(t, WithoutPrunes(calls))[j]
    ensures forall j :: j in After(t, calls) ==> j in After(t, WithoutPrunes(calls))
  {
    SweptRuns(t, calls, now);
  }

  // The sweep the service deliberately does not do: revoked rows as well.
  function SweptWithRevoked(t: Table, now: int): Table {
    map j | j in t && t[j].expiresAt >= now && !t[j].revoked :: t[j]
  }

  /** Why expiry alone: had the sweep also removed revoked rows, the replay of a spent, unexpired token
      would no longer revoke the user's live tokens. */
  lemma SweepingRevokedHidesReuse(t: Table, spent: Token, live: nat, now: int)
    requires spent.jti in t && t[spent.jti].fingerprint == spent && t[spent.jti].revoked
    requires t[spent.jti].expiresAt >= now && t[spent.jti].user == spent.sub
    requires live in t && !t[live].revoked && t[live].user == spent.sub && t[live].expiresAt >= now
    ensures forall jti, ttl :: Effect(t, Refresh(spent, jti, ttl), now)[live].revoked
    ensures forall jti, ttl ::
              var swept := Effect(SweptWithRevoked(t, now), Refresh(spent, jti, ttl), now);
              live in swept && !swept[live].revoked
  {}

  // ---- A token is exchanged at most once ----

  // The id a call would give a new token.
  function NewId(call: Call): Option<nat> {
    match call
    case SignIn(_, jti, _) => Some(jti)
    case Refresh(_, jti, _) => Some(jti)
    case _ => None
  }

  ghost predicate FreshIds(calls: seq<Timed>) {
    forall i, j :: 0 <= i < j < |calls| && NewId(calls[i].call).Some? ==> NewId(calls[i].call) != NewId(calls[j].call)
  }

  // The table before call `n`, from an empty one.
  function Before(calls: seq<Timed>, n: nat): Table
    requires n <= |calls|
  {
    After(map[], calls[..n])
  }

  function AnswerAt(calls: seq<Timed>, i: nat): Answer
    requires i < |calls|
  {
    AnswerOf(Before(calls, i), calls[i].call, calls[i].at)
  }

  lemma BeforeNext(calls: seq<Timed>, n: nat)
    requires n < |calls|
    ensures Before(calls, n + 1) == Effect(Before(calls, n), calls[n].call, calls[n].at)
  {
    assert calls[..n + 1][..n] == calls[..n];
  }

  lemma {:induction false} RowsAreIssued(calls: seq<Timed>, n: nat, j: nat)
    requires n <= |calls| && j in Before(calls, n)
    ensures exists m :: 0 <= m < n && NewId(calls[m].call) == Some(j)
  {
    assert calls[..0] == [];
    if n > 0 {
      BeforeNext(calls, n - 1);
      if j in Before(calls, n - 1) {
        RowsAreIssued(calls, n - 1, j);
      } else {
        assert NewId(calls[n - 1].call) == Some(j);
      }
    }
  }

  // A row's user and token never change, a revocation is never taken back, and only expiry removes it.
  ghost predicate Aged(t: Table, t': Table, j: nat, now: int) {
    && (j in t' ==> j in t && t'[j].(revoked := t[j].revoked) == t[j] && (t[j].revoked ==> t'[j].revoked))
    && (j in t && t[j].expiresAt >= now ==> j in t')
  }

  lemma CallAges(t: Table, call: Call, now: int, j: nat)
    requires NewId(call) != Some(j)
    ensures Aged(t, Effect(t, call, now), j, now)
  {}

  lemma {:induction false} RowsAge(calls: seq<Timed>, i: nat, n: nat, j: nat, now: int)
    requires i <= n <= |calls| && forall k :: i <= k < n ==> NewId(calls[k].call) != Some(j) && calls[k].at <= now
    ensures Aged(Before(calls, i), Before(calls, n), j, now)
    decreases n
  {
    if i < n {
      RowsAge(calls, i, n - 1, j, now);
      BeforeNext(calls, n - 1);
      CallAges(Before(calls, n - 1), calls[n - 1].call, calls[n - 1].at, j);
    }
  }

  lemma SpentByExchange(calls: seq<Timed>, i: nat)
    requires FreshIds(calls) && i < |calls| && calls[i].call.Refresh? && AnswerAt(calls, i).Issued?
    ensures var token := calls[i].call.token;
            && token.jti in Before(calls, i) && Before(calls, i)[token.jti].fingerprint == token
            && (forall k :: i <= k < |calls| ==> NewId(calls[k].call) != Some(token.jti))
            && token.jti in Before(calls, i + 1)
            && Before(calls, i + 1)[token.jti] == Before(calls, i)[token.jti].(revoked := true)
  {
    var token := calls[i].call.token;
    BeforeNext(calls, i);
    RowsAreIssued(calls, i, token.jti);
    var m :| 0 <= m < i && NewId(calls[m].call) == Some(token.jti);
  }

  ghost predicate NoneLive(t: Table, user: nat) {
    forall j :: j in t && t[j].user == user ==> t[j].revoked
  }

  /** Over any sequence of calls with fresh ids and a monotone clock: a token answered with a new one is
      never answered so again, and presenting it again before it expires leaves every row of its user
      revoked. */
  lemma ExchangedOnceThenReuse(calls: seq<Timed>, i: nat, j: nat)
    requires FreshIds(calls) && InTimeOrder(calls) && i < j < |calls|
    requires calls[i].call.Refresh? && calls[j].call.Refresh? && calls[i].call.token == calls[j].call.token
    requires AnswerAt(calls, i).Issued?
    ensures AnswerAt(calls, j) == Unauthorized
    ensures var jti := calls[i].call.token.jti;
            && jti in Before(calls, i)
            && (calls[j].at <= Before(calls, i)[jti].expiresAt ==>
                  NoneLive(Before(calls, j + 1), Before(calls, i)[jti].user))
  {
    var token := calls[i].call.token;
    SpentByExchange(calls, i);
    RowsAge(calls, i + 1, j, token.jti, calls[j].at);
    BeforeNext(calls, j);
  }

  /** A reset revokes every row of its user and no other; a sign-in adds one live row. */
  lemma ResetAndSignIn(t: Table, user: nat, jti: nat, ttl: nat, now: int)
    ensures var reset := Effect(t, ResetPassword(user), now);
            && reset.Keys == t.Keys
            && forall j :: j in t ==> reset[j] == if t[j].user == user then t[j].(revoked := true) else t[j]
    ensures Effect(t, SignIn(user, jti, ttl), now) == t[jti := Row(user, Token(jti, user), now + ttl, false)]
  {}
}
