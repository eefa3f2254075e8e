/** Refresh rotation under concurrency: every request is a handful of statements that interleave with
    other requests, sign-ins, logouts, password resets and sweeps; a request may die between any two. */
module RefreshRotation {
  import opened Domain
  import opened TokenStore

  datatype Pc =
    | Read(token: Token)
    | Cas(token: Token, user: nat)
    | Revoke(user: nat)
    | Insert(user: nat, parent: Option<nat>)   // None: a sign-in

  // Who a token was issued to and the token it was exchanged for.
  datatype Issue = Issue(user: nat, parent: Option<nat>)

  // History only: `won` holds the tokens whose compare-and-set some request saw itself win; `issued`
  // records every token inserted.
  datatype State = State(
    clock: int,
    rows: Table,
    requests: map<nat, Pc>,
    next: nat,
    won: set<nat>,
    issued: map<nat, Issue>)

  datatype Step =
    | Tick(elapsed: nat)
    | SignIn(r: nat, user: nat)
    | Present(r: nat, token: Token)
    | ReadRow(r: nat)
    | CasRow(r: nat, outcome: Outcome)
    | RevokeFamily(r: nat, outcome: Outcome)
    | InsertRow(r: nat, ttl: nat, outcome: Outcome)
    | Logout(token: Token)
    | ResetPassword(user: nat)
    | Prune
    | Crash(r: nat)

  function Init(clock: int): State {
    State(clock, map[], map[], 0, {}, map[])
  }

  predicate Enabled(s: State, step: Step) {
    match step
    case SignIn(r, _) => r !in s.requests
    case Present(r, _) => r !in s.requests
    case ReadRow(r) => r in s.requests && s.requests[r].Read?
    case CasRow(r, _) => r in s.requests && s.requests[r].Cas?
    case RevokeFamily(r, _) => r in s.requests && s.requests[r].Revoke?
    case InsertRow(r, _, _) => r in s.requests && s.requests[r].Insert?
    case Crash(r) => r in s.requests
    case _ => true
  }

  function Goto(s: State, r: nat, pc: Pc): State { s.(requests := s.requests[r := pc]) }

  function Ended(s: State, r: nat): State { s.(requests := s.requests - {r}) }

  function CasDone(s: State, r: nat, outcome: Outcome): State
    requires Enabled(s, CasRow(r, outcome))
  {
    var Cas(token, user) := s.requests[r];
    var stored := if outcome.Lands() then s.(rows := Spent(s.rows, token.jti)) else s;
    if !outcome.Answered? then Ended(stored, r)
    else if Spendable(s.rows, token.jti) then
      Goto(stored, r, Insert(token.sub, Some(token.jti))).(won := s.won + {token.jti})
    else Goto(stored, r, Revoke(user))
  }

  function InsertDone(s: State, r: nat, ttl: nat, outcome: Outcome): State
    requires Enabled(s, InsertRow(r, ttl, outcome))
  {
    var Insert(user, parent) := s.requests[r];
    if !outcome.Lands() then Ended(s, r).(next := s.next + 1)
    else Ended(s, r).(rows := Inserted(s.rows, Token(s.next, user), s.clock + ttl),
                      issued := s.issued[s.next := Issue(user, parent)],
                      next := s.next + 1)
  }

  function Apply(s: State, step: Step): State
    requires Enabled(s, step)
  {
    match step
    case Tick(elapsed) => s.(clock := s.clock + elapsed)
    case SignIn(r, user) => Goto(s, r, Insert(user, None))
    case Present(r, token) => Goto(s, r, Read(token))
    case ReadRow(r) => (
      match Lookup(s.rows, s.requests[r].token, s.clock)
      case Reject => Ended(s, r)
      case Reuse(user) => Goto(s, r, Revoke(user))
      case Rotate => Goto(s, r, Cas(s.requests[r].token, s.rows[s.requests[r].token.jti].user)))
    case CasRow(r, outcome) => CasDone(s, r, outcome)
    case RevokeFamily(r, outcome) =>
      Ended(if outcome.Lands() then s.(rows := FamilyRevoked(s.rows, s.requests[r].user)) else s, r)
    case InsertRow(r, ttl, outcome) => InsertDone(s, r, ttl, outcome)
    case Logout(token) => s.(rows := Spent(s.rows, token.jti))
    case ResetPassword(user) => s.(rows := FamilyRevoked(s.rows, user))
    case Prune => s.(rows := Swept(s.rows, s.clock))
    case Crash(r) => Ended(s, r)
  }

  ghost predicate Linked(s: State, step: Step, s': State) {
    Enabled(s, step) && s' == Apply(s, step)
  }

  ghost predicate Behaviour(states: seq<State>, steps: seq<Step>) {
    && |states| == |steps| + 1 && states[0] == Init(states[0].clock)
    && forall i :: 0 <= i < |steps| ==> Linked(states[i], steps[i], states[i + 1])
  }

  // ---- Each token is exchanged at most once ----

  ghost predicate RowOk(s: State, j: nat)
    requires j in s.rows
  {
    && j < s.next && s.rows[j].fingerprint == Token(j, s.rows[j].user)
    && j in s.issued && s.issued[j].user == s.rows[j].user
  }

  ghost predicate RequestOk(s: State, pc: Pc) {
    && (pc.Cas? ==> pc.token.sub == pc.user && pc.token.jti < s.next && Owner(s, pc.token.jti, pc.user))
    && (pc.Insert? && pc.parent.Some? ==>
          && pc.parent.value in s.won && Owner(s, pc.parent.value, pc.user)
          && forall j :: j in s.issued ==> s.issued[j].parent != pc.parent)
  }

  ghost predicate Owner(s: State, j: nat, user: nat) {
    j in s.issued && s.issued[j].user == user
  }

  ghost predicate IssueOk(s: State, j: nat)
    requires j in s.issued
  {
    && j < s.next
    && (s.issued[j].parent.Some? ==>
          && s.issued[j].parent.value < j && s.issued[j].parent.value in s.won
          && Owner(s, s.issued[j].parent.value, s.issued[j].user))
  }

  ghost predicate OneChild(s: State) {
    forall j, k :: j in s.issued && k in s.issued && Siblings(s.issued[j], s.issued[k]) ==> j == k
  }

  // Two tokens issued in exchange for the same one.
  predicate Siblings(a: Issue, b: Issue) {
    a.parent.Some? && a.parent == b.parent
  }

  ghost predicate OneInserter(s: State) {
    forall q, r :: q in s.requests && r in s.requests && Rivals(s.requests[q], s.requests[r]) ==> q == r
  }

  // Two inserts in exchange for the same token.
  predicate Rivals(a: Pc, b: Pc) {
    a.Insert? && b.Insert? && a.parent.Some? && a.parent == b.parent
  }

  ghost predicate Inv(s: State) {
    && (forall j :: j in s.rows ==> RowOk(s, j))
    && (forall j :: j in s.won ==> j < s.next && !Spendable(s.rows, j))
    && (forall r :: r in s.requests ==> RequestOk(s, s.requests[r]))
    && (forall j :: j in s.issued ==> IssueOk(s, j))
    && OneChild(s) && OneInserter(s)
  }

  // What every statement but the insert does to the rows: some go, some become revoked.
  ghost predicate Shrinks(t: Table, t': Table) {
    forall j :: j in t' ==> j in t && (t'[j] == t[j] || t'[j] == t[j].(revoked := true))
  }

  ghost predicate NewPcOk(s: State, pc: Pc) {
    RequestOk(s, pc) && !(pc.Insert? && pc.parent.Some?)
  }

  // Steps that neither win nor insert: at most one request moves, and the rows only shrink.
  ghost predicate Quiet(s: State, s': State) {
    && s'.issued == s.issued && s'.next == s.next && s'.won == s.won && Shrinks(s.rows, s'.rows)
    && (forall r :: r in s'.requests ==>
          (r in s.requests && s'.requests[r] == s.requests[r]) || NewPcOk(s, s'.requests[r]))
  }

  lemma QuietKeeps(s: State, s': State)
    requires Inv(s) && Quiet(s, s')
    ensures Inv(s')
  {
    forall j | j in s'.issued ensures IssueOk(s', j) { assert IssueOk(s, j); }
    forall j | j in s'.rows ensures RowOk(s', j) { assert RowOk(s, j); }
    forall r | r in s'.requests ensures RequestOk(s', s'.requests[r]) {
      assert RequestOk(s, s'.requests[r]);
    }
  }

  lemma RequestStep(s: State, step: Step, s': State)
    requires Inv(s) && Enabled(s, step) && s' == Apply(s, step)
    requires step.SignIn? || step.Present? || step.Crash?
    ensures Quiet(s, s')
  {}

  lemma ReadStep(s: State, r: nat, s': State)
    requires Inv(s) && Enabled(s, ReadRow(r)) && s' == Apply(s, ReadRow(r))
    ensures Quiet(s, s')
  {
    if s.requests[r].token.jti in s.rows { assert RowOk(s, s.requests[r].token.jti); }
  }

  lemma TableStep(s: State, step: Step, s': State)
    requires Inv(s) && Enabled(s, step) && s' == Apply(s, step)
    requires step.Tick? || step.RevokeFamily? || step.Logout? || step.ResetPassword? || step.Prune?
    ensures Quiet(s, s')
  {}

  predicate Winning(s: State, r: nat, outcome: Outcome)
    requires Enabled(s, CasRow(r, outcome))
  {
    outcome.Answered? && Spendable(s.rows, s.requests[r].token.jti)
  }

  lemma LosingStep(s: State, r: nat, outcome: Outcome, s': State)
    requires Inv(s) && Enabled(s, CasRow(r, outcome)) && s' == CasDone(s, r, outcome)
    requires !Winning(s, r, outcome)
    ensures Quiet(s, s')
  {}

  // A request that wins finds the row spendable, so nobody had won it before.
  lemma WinningStep(s: State, r: nat, outcome: Outcome, s': State)
    requires Inv(s) && Enabled(s, CasRow(r, outcome)) && s' == CasDone(s, r, outcome)
    requires Winning(s, r, outcome)
    ensures Inv(s')
  {
    var token := s.requests[r].token;
    assert RequestOk(s, s.requests[r]) && token.jti !in s.won;
    assert s'.won == s.won + {token.jti} && s'.issued == s.issued && s'.next == s.next;
    assert s'.requests == s.requests[r := Insert(token.sub, Some(token.jti))];
    assert s'.rows == Spent(s.rows, token.jti) && Shrinks(s.rows, s'.rows);
    forall j | j in s'.issued ensures IssueOk(s', j) { assert IssueOk(s, j); }
    forall j | j in s'.rows ensures RowOk(s', j) { assert RowOk(s, j); }
    forall q | q in s.requests && q != r ensures RequestOk(s', s'.requests[q]) {
      assert RequestOk(s, s.requests[q]);
    }
    forall j | j in s.issued ensures s.issued[j].parent != Some(token.jti) { assert IssueOk(s, j); }
  }

  lemma CasStep(s: State, r: nat, outcome: Outcome, s': State)
    requires Inv(s) && Enabled(s, CasRow(r, outcome)) && s' == CasDone(s, r, outcome)
    ensures Inv(s')
  {
    if Winning(s, r, outcome) {
      WinningStep(s, r, outcome, s');
    } else {
      LosingStep(s, r, outcome, s');
      QuietKeeps(s, s');
    }
  }

  lemma InsertStep(s: State, r: nat, ttl: nat, outcome: Outcome, s': State)
    requires Inv(s) && Enabled(s, InsertRow(r, ttl, outcome)) && s' == InsertDone(s, r, ttl, outcome)
    ensures Inv(s')
  {
    assert RequestOk(s, s.requests[r]);
    forall j | j in s'.issued ensures IssueOk(s', j) {
      if j in s.issued { assert IssueOk(s, j); }
      if s'.issued[j].parent.Some? && s'.issued[j].parent.value in s.issued {
        assert IssueOk(s, s'.issued[j].parent.value);
      }
    }
    forall j | j in s'.rows ensures RowOk(s', j) { assert j in s.rows ==> RowOk(s, j); }
    forall q | q in s'.requests ensures RequestOk(s', s'.requests[q]) {
      assert q in s.requests && RequestOk(s, s.requests[q]);
    }
    forall j | j in s.issued ensures j < s.next { assert IssueOk(s, j); }
  }

  lemma OtherStep(s: State, step: Step, s': State)
    requires Inv(s) && Linked(s, step, s') && !step.CasRow? && !step.InsertRow?
    ensures Quiet(s, s')
  {
    if step.ReadRow? { ReadStep(s, step.r, s'); }
    else if step.SignIn? || step.Present? || step.Crash? { RequestStep(s, step, s'); }
    else { TableStep(s, step, s'); }
  }

  lemma StepKeeps(s: State, step: Step, s': State)
    requires Inv(s) && Linked(s, step, s')
    ensures Inv(s')
  {
    if step.CasRow? { CasStep(s, step.r, step.outcome, s'); }
    else if step.InsertRow? { InsertStep(s, step.r, step.ttl, step.outcome, s'); }
    else {
      OtherStep(s, step, s');
      QuietKeeps(s, s');
    }
  }

  lemma {:induction false} InvAlways(states: seq<State>, steps: seq<Step>, i: nat)
    requires Behaviour(states, steps) && i < |states|
    ensures Inv(states[i])
  {
    if i > 0 {
      InvAlways(states, steps, i - 1);
      StepKeeps(states[i - 1], steps[i - 1], states[i]);
    }
  }

  /** Rotation: over all interleavings, no two tokens are ever issued in exchange for the same refresh
      token, each goes to the user the spent one belonged to, and an exchanged token can never be
      spent again. */
  lemma ExchangedAtMostOnce(states: seq<State>, steps: seq<Step>, i: nat, j: nat, k: nat)
    requires Behaviour(states, steps) && i < |states|
    requires j in states[i].issued && k in states[i].issued
    requires states[i].issued[j].parent.Some? && states[i].issued[j].parent == states[i].issued[k].parent
    ensures j == k
    ensures var parent := states[i].issued[j].parent.value;
            && parent in states[i].issued && states[i].issued[parent].user == states[i].issued[j].user
            && !Spendable(states[i].rows, parent)
  {
    InvAlways(states, steps, i);
    assert IssueOk(states[i], j);
  }

  // ---- After a detected reuse ----

  ghost predicate AllRevoked(s: State, user: nat) {
    NoneLive(s.rows, user)
  }

  /** The token was issued after the cut, and its chain of exchanges leads back, within the tokens
      issued after the cut, to a sign-in or to a token whose exchange had been won before it. */
  ghost predicate Descends(cut: State, issued: map<nat, Issue>, j: nat)
    decreases j
  {
    && j in issued && j >= cut.next
    && (issued[j].parent.Some? ==>
          var p := issued[j].parent.value;
          p in cut.won || (p < j && Descends(cut, issued, p)))
  }

  ghost predicate PcDescends(cut: State, s: State, user: nat, pc: Pc) {
    pc.Insert? && pc.user == user && pc.parent.Some? ==>
      pc.parent.value in cut.won || Descends(cut, s.issued, pc.parent.value)
  }

  ghost predicate AfterCut(cut: State, s: State, user: nat) {
    && cut.next <= s.next
    && (forall j :: j in s.rows && s.rows[j].user == user && !s.rows[j].revoked ==> j >= cut.next)
    && (forall j :: j in s.issued && j >= cut.next && s.issued[j].user == user ==> Descends(cut, s.issued, j))
    && (forall r :: r in s.requests ==> PcDescends(cut, s, user, s.requests[r]))
  }

  // Inserting a fresh token leaves older chains as they are.
  lemma {:induction false} DescendsKept(cut: State, issued: map<nat, Issue>, issued': map<nat, Issue>, j: nat)
    requires Descends(cut, issued, j)
    requires forall k :: k in issued ==> k in issued' && issued'[k] == issued[k]
    ensures Descends(cut, issued', j)
    decreases j
  {
    if issued[j].parent.Some? && issued[j].parent.value !in cut.won {
      DescendsKept(cut, issued, issued', issued[j].parent.value);
    }
  }

  lemma OtherAfterCut(cut: State, s: State, step: Step, s': State, user: nat)
    requires Inv(s) && AfterCut(cut, s, user) && Linked(s, step, s') && !step.InsertRow? && !step.CasRow?
    ensures AfterCut(cut, s', user)
  {
    OtherStep(s, step, s');
    forall r | r in s'.requests ensures PcDescends(cut, s', user, s'.requests[r]) {
      if r in s.requests { assert PcDescends(cut, s, user, s.requests[r]); }
    }
  }

  // A winner found its token live, so the token was issued after the cut.
  lemma CasAfterCut(cut: State, s: State, r: nat, outcome: Outcome, s': State, user: nat)
    requires Inv(s) && AfterCut(cut, s, user) && Enabled(s, CasRow(r, outcome)) && s' == CasDone(s, r, outcome)
    ensures AfterCut(cut, s', user)
  {
    assert RequestOk(s, s.requests[r]);
    assert s'.issued == s.issued && s'.next == s.next && Shrinks(s.rows, s'.rows);
    var p := s.requests[r].token.jti;
    if p in s.rows { assert RowOk(s, p); }
    forall q | q in s'.requests ensures PcDescends(cut, s', user, s'.requests[q]) {
      assert q in s.requests && PcDescends(cut, s, user, s.requests[q]);
    }
  }

  lemma InsertAfterCut(cut: State, s: State, r: nat, ttl: nat, outcome: Outcome, s': State, user: nat)
    requires Inv(s) && AfterCut(cut, s, user)
    requires Enabled(s, InsertRow(r, ttl, outcome)) && s' == InsertDone(s, r, ttl, outcome)
    ensures AfterCut(cut, s', user)
  {
    assert RequestOk(s, s.requests[r]) && PcDescends(cut, s, user, s.requests[r]);
    forall j | j in s.issued ensures j < s.next { assert IssueOk(s, j); }
    forall j | Descends(cut, s.issued, j) ensures Descends(cut, s'.issued, j) {
      DescendsKept(cut, s.issued, s'.issued, j);
    }
    forall q | q in s'.requests ensures PcDescends(cut, s', user, s'.requests[q]) {
      assert q in s.requests && PcDescends(cut, s, user, s.requests[q]);
    }
  }

  lemma AfterCutStep(cut: State, s: State, step: Step, s': State, user: nat)
    requires Inv(s) && AfterCut(cut, s, user) && Linked(s, step, s')
    ensures AfterCut(cut, s', user)
  {
    if step.InsertRow? { InsertAfterCut(cut, s, step.r, step.ttl, step.outcome, s', user); }
    else if step.CasRow? { CasAfterCut(cut, s, step.r, step.outcome, s', user); }
    else { OtherAfterCut(cut, s, step, s', user); }
  }

  lemma CutStarts(s: State, user: nat)
    requires Inv(s) && AllRevoked(s, user)
    ensures AfterCut(s, s, user)
  {
    forall j | j in s.issued ensures j < s.next { assert IssueOk(s, j); }
    forall r | r in s.requests ensures PcDescends(s, s, user, s.requests[r]) {
      assert RequestOk(s, s.requests[r]);
    }
  }

  lemma AfterCutNext(states: seq<State>, steps: seq<Step>, cut: State, k: nat, user: nat)
    requires Behaviour(states, steps) && k < |steps| && AfterCut(cut, states[k], user)
    ensures AfterCut(cut, states[k + 1], user)
  {
    InvAlways(states, steps, k);
    AfterCutStep(cut, states[k], steps[k], states[k + 1], user);
  }

  lemma {:induction false} AfterCutAlways(states: seq<State>, steps: seq<Step>, i: nat, k: nat, user: nat)
    requires Behaviour(states, steps) && i <= k < |states|
    requires AllRevoked(states[i], user)
    ensures AfterCut(states[i], states[k], user)
    decreases k
  {
    if k == i {
      InvAlways(states, steps, i);
      CutStarts(states[i], user);
    } else {
      AfterCutAlways(states, steps, i, k - 1, user);
      AfterCutNext(states, steps, states[i], k - 1, user);
    }
  }

  /** After a detected reuse (or a password reset): every row of the user that existed at the
      family-revoke statement stays revoked for good, and any token of the user that is live later
      descends from a new sign-in or from a refresh that had already won its compare-and-set. */
  lemma ReuseRevokesTheFamily(states: seq<State>, steps: seq<Step>, i: nat, k: nat, user: nat)
    requires Behaviour(states, steps) && i < |steps| && i + 1 <= k < |states|
    requires || (steps[i].RevokeFamily? && steps[i].outcome.Lands()
                 && steps[i].r in states[i].requests && states[i].requests[steps[i].r] == Revoke(user))
             || steps[i] == Step.ResetPassword(user)
    ensures forall j :: j in states[k].rows && states[k].rows[j].user == user && j < states[i + 1].next ==>
              states[k].rows[j].revoked
    ensures forall j :: j in states[k].rows && states[k].rows[j].user == user && !states[k].rows[j].revoked ==>
              Descends(states[i + 1], states[k].issued, j)
  {
    assert Linked(states[i], steps[i], states[i + 1]);
    AfterCutAlways(states, steps, i + 1, k, user);
    InvAlways(states, steps, k);
    forall j | j in states[k].rows ensures RowOk(states[k], j) {}
  }

  // ---- When the family is revoked for good ----

  ghost predicate RunsFrom(cut: State, states: seq<State>, steps: seq<Step>) {
    && |states| == |steps| + 1 && states[0] == cut
    && forall i :: 0 <= i < |steps| ==> Linked(states[i], steps[i], states[i + 1])
  }

  ghost predicate NoSignIn(steps: seq<Step>, user: nat) {
    forall i :: 0 <= i < |steps| && steps[i].SignIn? ==> steps[i].user != user
  }

  // A request past its compare-and-set, or a sign-in, still waiting to insert its row.
  ghost predicate Inserting(s: State, user: nat) {
    exists r :: r in s.requests && s.requests[r].Insert? && s.requests[r].user == user
  }

  ghost predicate SignedOut(s: State, user: nat) {
    AllRevoked(s, user) && !Inserting(s, user)
  }

  // No row turns live, and nobody new comes to insert for the user.
  ghost predicate StaysOut(s: State, s': State, user: nat) {
    && (forall j :: j in s'.rows && s'.rows[j].user == user ==>
          s'.rows[j].revoked || (j in s.rows && s.rows[j].user == user && !s.rows[j].revoked))
    && (forall r :: r in s'.requests && s'.requests[r].Insert? && s'.requests[r].user == user ==>
          r in s.requests && s'.requests[r] == s.requests[r])
  }

  // With every row revoked nobody can win, so nobody comes to insert.
  lemma LosersStayOut(s: State, r: nat, outcome: Outcome, s': State, user: nat)
    requires Inv(s) && SignedOut(s, user) && Enabled(s, CasRow(r, outcome)) && s' == CasDone(s, r, outcome)
    ensures StaysOut(s, s', user)
  {
    assert RequestOk(s, s.requests[r]);
    var p := s.requests[r].token.jti;
    if p in s.rows { assert RowOk(s, p); }
    assert Shrinks(s.rows, s'.rows);
  }

  lemma InsertersStayOut(s: State, r: nat, ttl: nat, outcome: Outcome, s': State, user: nat)
    requires SignedOut(s, user) && Enabled(s, InsertRow(r, ttl, outcome)) && s' == InsertDone(s, r, ttl, outcome)
    ensures StaysOut(s, s', user)
  {
    assert s.requests[r].user != user;
  }

  lemma OthersStayOut(s: State, step: Step, s': State, user: nat)
    requires Inv(s) && Linked(s, step, s') && !step.CasRow? && !step.InsertRow? && !(step.SignIn? && step.user == user)
    ensures StaysOut(s, s', user)
  {
    OtherStep(s, step, s');
    forall r | r in s'.requests && s'.requests[r].Insert? && !(r in s.requests && s'.requests[r] == s.requests[r])
      ensures step.SignIn? && s'.requests[r].user == step.user {}
  }

  lemma SignedOutStep(s: State, step: Step, s': State, user: nat)
    requires Inv(s) && SignedOut(s, user) && Linked(s, step, s') && !(step.SignIn? && step.user == user)
    ensures SignedOut(s', user)
  {
    if step.InsertRow? { InsertersStayOut(s, step.r, step.ttl, step.outcome, s', user); }
    else if step.CasRow? { LosersStayOut(s, step.r, step.outcome, s', user); }
    else { OthersStayOut(s, step, s', user); }
    StayingOut(s, s', user);
  }

  lemma StayingOut(s: State, s': State, user: nat)
    requires SignedOut(s, user) && StaysOut(s, s', user)
    ensures SignedOut(s', user)
  {}

  lemma {:induction false} SignedOutAlways(cut: State, states: seq<State>, steps: seq<Step>, user: nat, i: nat)
    requires Inv(cut) && SignedOut(cut, user) && RunsFrom(cut, states, steps) && NoSignIn(steps, user) && i < |states|
    ensures Inv(states[i]) && SignedOut(states[i], user)
  {
    if i > 0 {
      SignedOutAlways(cut, states, steps, user, i - 1);
      assert Linked(states[i - 1], steps[i - 1], states[i]);
      StepKeeps(states[i - 1], steps[i - 1], states[i]);
      SignedOutStep(states[i - 1], steps[i - 1], states[i], user);
    }
  }

  lemma InsertRevives(cut: State, user: nat) returns (states: seq<State>, steps: seq<Step>)
    requires Inserting(cut, user)
    ensures RunsFrom(cut, states, steps) && NoSignIn(steps, user) && !AllRevoked(states[|steps|], user)
  {
    var r :| r in cut.requests && cut.requests[r].Insert? && cut.requests[r].user == user;
    steps := [InsertRow(r, 0, Answered)];
    states := [cut, InsertDone(cut, r, 0, Answered)];
    assert Linked(states[0], steps[0], states[1]);
    assert cut.next in states[1].rows && !states[1].rows[cut.next].revoked;
  }

  // The user is signed out from here on, whatever happens short of a new sign-in.
  ghost predicate OutForGood(cut: State, user: nat) {
    forall states: seq<State>, steps: seq<Step> ::
      RunsFrom(cut, states, steps) && NoSignIn(steps, user) ==> AllRevoked(states[|steps|], user)
  }

  /** When a detected reuse really signs the user out: at any point of any run at which every row of
      the user is revoked, every continuation without a new sign-in keeps them all revoked if and
      only if no request is waiting to insert a row for the user at that moment. */
  lemma SignedOutForGoodIff(states: seq<State>, steps: seq<Step>, i: nat, user: nat)
    requires Behaviour(states, steps) && i < |states| && AllRevoked(states[i], user)
    ensures OutForGood(states[i], user) <==> !Inserting(states[i], user)
  {
    var cut := states[i];
    InvAlways(states, steps, i);
    if Inserting(cut, user) {
      var later, more := InsertRevives(cut, user);
    } else {
      forall later: seq<State>, more: seq<Step> | RunsFrom(cut, later, more) && NoSignIn(more, user)
        ensures AllRevoked(later[|more|], user)
      {
        SignedOutAlways(cut, later, more, user, |more|);
      }
    }
  }

  // ---- The race, run ----

  ghost predicate Reachable(s: State) {
    exists states: seq<State>, steps: seq<Step> :: Behaviour(states, steps) && states[|steps|] == s
  }

  lemma Then(s: State, step: Step) returns (s': State)
    requires Reachable(s) && Enabled(s, step)
    ensures s' == Apply(s, step) && Reachable(s')
  {
    s' := Apply(s, step);
    var states: seq<State>, steps: seq<Step> :| Behaviour(states, steps) && states[|steps|] == s;
    var states', steps' := states + [s'], steps + [step];
    forall i | 0 <= i < |steps'| ensures Linked(states'[i], steps'[i], states'[i + 1]) {
      if i < |steps| { assert Linked(states[i], steps[i], states[i + 1]); }
    }
    assert Behaviour(states', steps') && states'[|steps'|] == s';
  }

  const USER: nat := 7
  const T := Token(0, USER)
  const ROW := Row(USER, T, 100, false)

  // Two requests have both read token 0 as live.
  lemma BothRead() returns (s: State)
    ensures Reachable(s) && s.clock == 0 && s.next == 1
    ensures s.rows == map[0 := ROW] && s.requests == map[1 := Cas(T, USER), 2 := Cas(T, USER)]
  {
    var states, steps: seq<Step> := [Init(0)], [];
    assert Behaviour(states, steps) && states[|steps|] == Init(0);
    s := Then(Init(0), Step.SignIn(0, USER));
    s := Then(s, InsertRow(0, 100, Answered));
    assert s.requests == map[] && s.rows == map[0 := ROW];
    s := Then(s, Present(1, T));
    s := Then(s, Present(2, T));
    assert s.requests == map[1 := Read(T), 2 := Read(T)];
    s := Then(s, ReadRow(1));
    s := Then(s, ReadRow(2));
  }

  /** The winner of a compare-and-set may insert its row after the loser has revoked the family: a
      reuse was detected and acted on, yet a token descending from the reused one is live. */
  lemma WinnerInsertsAfterTheRevoke() returns (cut: State, s: State)
    ensures Reachable(cut) && Reachable(s) && AllRevoked(cut, USER) && cut.requests.Keys == {1}
    ensures Spendable(s.rows, 1) && s.rows[1].user == USER && 1 in s.issued && s.issued[1].parent == Some(0)
  {
    s := BothRead();
    s := Then(s, CasRow(1, Answered));
    assert s.rows == map[0 := ROW.(revoked := true)];
    s := Then(s, CasRow(2, Answered));
    assert s.requests == map[1 := Insert(USER, Some(0)), 2 := Revoke(USER)];
    cut := Then(s, RevokeFamily(2, Answered));
    s := Then(cut, InsertRow(1, 100, Answered));
  }

  // ---- An uninterrupted call is a run ----

  /** A refresh left alone is one run of the interleaved statements: the table, and the token issued if
      any, are those the call as code leaves. So what holds over all interleavings holds of it. */
  lemma RefreshIsARun(s: State, r: nat, token: Token, ttl: nat) returns (s': State)
    requires Reachable(s) && r !in s.requests
    ensures Reachable(s') && s'.requests == s.requests && s'.clock == s.clock
    ensures s'.rows == Effect(s.rows, Refresh(token, s.next, ttl), s.clock)
    ensures AnswerOf(s.rows, Refresh(token, s.next, ttl), s.clock).Issued? ==>
              s'.issued == s.issued[s.next := Issue(token.sub, Some(token.jti))]
    ensures !AnswerOf(s.rows, Refresh(token, s.next, ttl), s.clock).Issued? ==> s'.issued == s.issued
  {
    var read := Then(s, Present(r, token));
    assert read.requests - {r} == s.requests;
    s' := Then(read, ReadRow(r));
    match Lookup(s.rows, token, s.clock)
    case Reject => assert s'.requests == s.requests;
    case Reuse(user) => s' := RevokeIsARun(s, s', r, user);
    case Rotate => s' := RotateIsARun(s, s', r, token, ttl);
  }

  lemma RevokeIsARun(s: State, at: State, r: nat, user: nat) returns (s': State)
    requires Reachable(at) && r !in s.requests && at == s.(requests := s.requests[r := Revoke(user)])
    ensures Reachable(s') && s' == s.(rows := FamilyRevoked(s.rows, user))
  {
    s' := Then(at, RevokeFamily(r, Answered));
    assert s'.requests == s.requests;
  }

  lemma RotateIsARun(s: State, at: State, r: nat, token: Token, ttl: nat) returns (s': State)
    requires Reachable(s) && Reachable(at) && r !in s.requests && Spendable(s.rows, token.jti)
    requires at == s.(requests := s.requests[r := Cas(token, s.rows[token.jti].user)])
    ensures Reachable(s') && s'.requests == s.requests && s'.clock == s.clock
    ensures s'.rows == Inserted(Spent(s.rows, token.jti), Token(s.next, token.sub), s.clock + ttl)
    ensures s'.issued == s.issued[s.next := Issue(token.sub, Some(token.jti))]
  {
    var won := Then(at, CasRow(r, Answered));
    assert won.requests == s.requests[r := Insert(token.sub, Some(token.jti))];
    s' := Then(won, InsertRow(r, ttl, Answered));
    assert s'.requests == s.requests;
  }

  /** And so are the other calls. */
  lemma OtherCallsAreRuns(s: State, r: nat, user: nat, token: Token, ttl: nat)
    requires Reachable(s) && r !in s.requests
    ensures Apply(s, Step.Logout(token)) == s.(rows := Effect(s.rows, Call.Logout(token), s.clock))
    ensures Apply(s, Step.ResetPassword(user)) == s.(rows := Effect(s.rows, Call.ResetPassword(user), s.clock))
    ensures Apply(s, Step.Prune) == s.(rows := Effect(s.rows, Call.Prune, s.clock))
    ensures var started := Apply(s, Step.SignIn(r, user));
            && Enabled(started, InsertRow(r, ttl, Answered))
            && var s' := Apply(started, InsertRow(r, ttl, Answered));
            && s'.rows == Effect(s.rows, Call.SignIn(user, s.next, ttl), s.clock) && s'.requests == s.requests
            && s'.issued == s.issued[s.next := Issue(user, None)]
  {
    var started := Apply(s, Step.SignIn(r, user));
    assert (started.requests - {r}) == s.requests;
  }

  // ---- Losing the compare-and-set ----

  predicate Concerns(step: Step, r: nat) {
    match step
    case SignIn(q, _) => q == r
    case Present(q, _) => q == r
    case ReadRow(q) => q == r
    case CasRow(q, _) => q == r
    case RevokeFamily(q, _) => q == r
    case InsertRow(q, _, _) => q == r
    case Crash(q) => q == r
    case _ => false
  }

  lemma {:induction false} RequestWaits(states: seq<State>, steps: seq<Step>, i: nat, k: nat, r: nat)
    requires Behaviour(states, steps) && i <= k < |states| && r in states[i].requests
    requires forall j :: i <= j < k ==> !Concerns(steps[j], r)
    ensures r in states[k].requests && states[k].requests[r] == states[i].requests[r]
    decreases k
  {
    if i < k {
      RequestWaits(states, steps, i, k - 1, r);
      assert Linked(states[k - 1], steps[k - 1], states[k]);
    }
  }

  /** Whoever loses the compare-and-set revokes the family: over every run, the next thing a request
      does after finding its token already spent is to revoke every row of the token's owner, unless
      it dies first. */
  lemma LoserRevokesTheFamily(states: seq<State>, steps: seq<Step>, i: nat, k: nat, r: nat)
    requires Behaviour(states, steps) && i < k < |steps| && steps[i] == CasRow(r, Answered)
    requires r in states[i].requests && states[i].requests[r].Cas?
    requires !Spendable(states[i].rows, states[i].requests[r].token.jti)
    requires Concerns(steps[k], r) && forall j :: i < j < k ==> !Concerns(steps[j], r)
    ensures steps[k].Crash? || steps[k].RevokeFamily?
    ensures steps[k].RevokeFamily? && steps[k].outcome.Lands() ==>
              AllRevoked(states[k + 1], states[i].requests[r].token.sub)
  {
    InvAlways(states, steps, i);
    assert RequestOk(states[i], states[i].requests[r]);
    assert Linked(states[i], steps[i], states[i + 1]);
    RequestWaits(states, steps, i + 1, k, r);
    assert Linked(states[k], steps[k], states[k + 1]);
  }
}
