/** Routing keys, queue names and the topology the consumer declares at connect: why every key the
    pipeline publishes with reaches exactly one queue, and an expired retry goes back where it came
    from. */
module Routing {
  import opened Domain
  import opened Decimal
  import D = Delivery
  import Coverage
  import Ladder

  datatype Exchange = Notifications | DeadLetter

  function Tag(channel: Channel): string {
    match channel
    case Telegram => "telegram"
    case Email => "email"
    case WebPush => "push"
  }

  function RoutingKeyFor(channel: Channel): string { Tag(channel) + ".fired" }

  function QueueNameFor(channel: Channel): string { "notifications." + Tag(channel) }

  function RetryRoutingKeyFor(channel: Channel, attempt: nat): string {
    Tag(channel) + ".retry." + IntText(attempt)
  }

  function RetryQueueNameFor(channel: Channel, attempt: nat): string {
    QueueNameFor(channel) + ".retry." + IntText(attempt)
  }

  function DeadRoutingKeyFor(channel: Channel): string { Tag(channel) + ".dead" }

  function DeadQueueNameFor(channel: Channel): string { QueueNameFor(channel) + ".dead" }

  // ---- Topic exchanges ----

  // A key or pattern as its dot-separated words.
  function Words(text: string): (words: seq<string>)
    ensures words != []
  {
    if text == "" then [""]
    else
      var rest := Words(text[1..]);
      if text[0] == '.' then [""] + rest else [[text[0]] + rest[0]] + rest[1..]
  }

  // `*` stands for one word, `#` for any number of words.
  predicate Matches(pattern: seq<string>, key: seq<string>)
    decreases |pattern| + |key|
  {
    if pattern == [] then key == []
    else if pattern[0] == "#" then Matches(pattern[1..], key) || (key != [] && Matches(pattern, key[1..]))
    else key != [] && (pattern[0] == "*" || pattern[0] == key[0]) && Matches(pattern[1..], key[1..])
  }

  predicate Literal(pattern: seq<string>) {
    forall i :: 0 <= i < |pattern| ==> pattern[i] != "*" && pattern[i] != "#"
  }

  lemma {:induction false} LiteralMatchesItself(pattern: seq<string>, key: seq<string>)
    requires Literal(pattern)
    ensures Matches(pattern, key) <==> pattern == key
  {
    if pattern != [] && key != [] {
      LiteralMatchesItself(pattern[1..], key[1..]);
      assert pattern == [pattern[0]] + pattern[1..] && key == [key[0]] + key[1..];
    }
  }

  lemma {:induction false} OneWord(word: string)
    requires '.' !in word
    ensures Words(word) == [word]
  {
    if word != "" {
      OneWord(word[1..]);
      assert word == [word[0]] + word[1..];
    }
  }

  lemma {:induction false} FirstWord(word: string, rest: string)
    requires '.' !in word
    ensures Words(word + "." + rest) == [word] + Words(rest)
  {
    var text := word + "." + rest;
    if word == "" {
      assert text[1..] == rest;
    } else {
      FirstWord(word[1..], rest);
      assert text[1..] == word[1..] + "." + rest;
      assert word == [word[0]] + word[1..];
    }
  }

  lemma NumberWord(n: nat)
    ensures Words(IntText(n)) == [IntText(n)] && IntText(n) != "*" && IntText(n) != "#"
  {
    assert forall c :: c in IntText(n) ==> IsDigit(c);
    OneWord(IntText(n));
    assert IsDigit(IntText(n)[0]);
  }

  lemma Dotted(a: string, b: string)
    requires '.' !in a && '.' !in b
    ensures Words(a + "." + b) == [a, b]
  {
    OneWord(b);
    FirstWord(a, b);
  }

  lemma DottedNumber(a: string, b: string, n: nat)
    requires '.' !in a && '.' !in b
    ensures Words(a + "." + b + "." + IntText(n)) == [a, b, IntText(n)]
  {
    NumberWord(n);
    FirstWord(b, IntText(n));
    FirstWord(a, b + "." + IntText(n));
    assert a + "." + (b + "." + IntText(n)) == a + "." + b + "." + IntText(n);
  }

  lemma KeyWords(channel: Channel, attempt: nat)
    ensures Words(RoutingKeyFor(channel)) == [Tag(channel), "fired"]
    ensures Words(DeadRoutingKeyFor(channel)) == [Tag(channel), "dead"]
    ensures Words(RetryRoutingKeyFor(channel, attempt)) == [Tag(channel), "retry", IntText(attempt)]
  {
    var tag, n := Tag(channel), IntText(attempt);
    Dotted(tag, "fired");
    assert tag + ".fired" == tag + "." + "fired";
    Dotted(tag, "dead");
    assert tag + ".dead" == tag + "." + "dead";
    DottedNumber(tag, "retry", attempt);
    assert tag + ".retry." + n == tag + "." + "retry" + "." + n;
  }

  lemma QueueWords(channel: Channel, attempt: nat)
    ensures Words(QueueNameFor(channel)) == ["notifications", Tag(channel)]
    ensures Words(DeadQueueNameFor(channel)) == ["notifications", Tag(channel), "dead"]
    ensures Words(RetryQueueNameFor(channel, attempt)) == ["notifications", Tag(channel), "retry", IntText(attempt)]
  {
    KeyWords(channel, attempt);
    Prefixed(Tag(channel));
    OneWord(Tag(channel));
    Prefixed(DeadRoutingKeyFor(channel));
    Appended("notifications.", Tag(channel), ".dead");
    Prefixed(RetryRoutingKeyFor(channel, attempt));
    Appended("notifications.", Tag(channel), ".retry.");
    Appended("notifications.", Tag(channel) + ".retry.", IntText(attempt));
  }

  lemma Appended(a: string, b: string, c: string)
    ensures a + b + c == a + (b + c)
  {}

  lemma Prefixed(rest: string)
    ensures Words("notifications." + rest) == ["notifications"] + Words(rest)
  {
    FirstWord("notifications", rest);
    assert "notifications." + rest == "notifications" + "." + rest;
  }

  // ---- Declaring the topology ----

  datatype Queue = Queue(ttl: Option<nat>, onExpiry: Option<(Exchange, string)>, maxLength: Option<nat>)

  datatype Binding = Binding(queue: string, exchange: Exchange, pattern: string)

  datatype Declaration = Declaration(binding: Binding, args: Queue)

  datatype Topology = Topology(queues: map<string, Queue>, bindings: set<Binding>)

  function MainOf(channel: Channel): Declaration {
    Declaration(Binding(QueueNameFor(channel), Notifications, RoutingKeyFor(channel)), Queue(None, None, None))
  }

  function RetryOf(channel: Channel, attempt: nat, delay: nat): Declaration {
    Declaration(Binding(RetryQueueNameFor(channel, attempt), DeadLetter, RetryRoutingKeyFor(channel, attempt)),
                Queue(Some(delay), Some((Notifications, RoutingKeyFor(channel))), None))
  }

  function ParkingOf(channel: Channel, deadMax: nat): Declaration {
    Declaration(Binding(DeadQueueNameFor(channel), DeadLetter, DeadRoutingKeyFor(channel)),
                Queue(None, None, Some(deadMax)))
  }

  // Declaring a queue that exists with other arguments is refused by the broker.
  function Declared(t: Topology, d: Declaration): Option<Topology> {
    if d.binding.queue in t.queues && t.queues[d.binding.queue] != d.args then None
    else Some(Topology(t.queues[d.binding.queue := d.args], t.bindings + {d.binding}))
  }

  function AllDeclared(t: Topology, plan: seq<Declaration>): Option<Topology> {
    if plan == [] then Some(t)
    else
      match AllDeclared(t, plan[..|plan| - 1])
      case None => None
      case Some(before) => Declared(before, plan[|plan| - 1])
  }

  function Rungs(channel: Channel, delays: seq<nat>): seq<Declaration> {
    seq(|delays|, i requires 0 <= i < |delays| => RetryOf(channel, i + 1, delays[i]))
  }

  function ChannelPlan(channel: Channel, delays: seq<nat>, deadMax: nat): seq<Declaration> {
    [MainOf(channel)] + Rungs(channel, delays) + [ParkingOf(channel, deadMax)]
  }

  function Plan(channels: seq<Channel>, delays: seq<nat>, deadMax: nat): seq<Declaration> {
    if channels == [] then []
    else Plan(channels[..|channels| - 1], delays, deadMax) + ChannelPlan(channels[|channels| - 1], delays, deadMax)
  }

  ghost predicate ConsumesAll(consumed: map<Channel, string>, channels: seq<Channel>) {
    forall c :: c in channels ==> c in consumed && consumed[c] == QueueNameFor(c)
  }

  class Broker {
    var queues: map<string, Queue>
    var bindings: set<Binding>
    var consumed: map<Channel, string>

    constructor ()
      ensures queues == map[] && bindings == {} && consumed == map[]
    {
      queues, bindings, consumed := map[], {}, map[];
    }

    function View(): Topology
      reads this
    {
      Topology(queues, bindings)
    }

    method Declare(d: Declaration) returns (ok: bool)
      modifies this`queues, this`bindings
      ensures ok <==> Declared(old(View()), d).Some?
      ensures ok ==> Some(View()) == Declared(old(View()), d)
      ensures !ok ==> View() == old(View())
    {
      ok := d.binding.queue !in queues || queues[d.binding.queue] == d.args;
      if ok {
        queues := queues[d.binding.queue := d.args];
        bindings := bindings + {d.binding};
      }
    }

    method DeclareRungs(channel: Channel, delays: seq<nat>) returns (ok: bool)
      modifies this`queues, this`bindings
      ensures ok <==> AllDeclared(old(View()), Rungs(channel, delays)).Some?
      ensures ok ==> Some(View()) == AllDeclared(old(View()), Rungs(channel, delays))
    {
      ghost var before, rungs := View(), Rungs(channel, delays);
      for k := 0 to |delays|
        invariant AllDeclared(before, rungs[..k]) == Some(View())
      {
        ok := Declare(RetryOf(channel, k + 1, delays[k]));
        DeclareNext(before, rungs, k);
        if !ok { return; }
      }
      assert rungs[..|delays|] == rungs;
      ok := true;
    }

    // Main queue, retry stages, parking queue, consumer.
    method SetupChannel(channel: Channel, delays: seq<nat>, deadMax: nat) returns (ok: bool)
      modifies this
      ensures ok <==> AllDeclared(old(View()), ChannelPlan(channel, delays, deadMax)).Some?
      ensures ok ==> Some(View()) == AllDeclared(old(View()), ChannelPlan(channel, delays, deadMax))
      ensures consumed == if ok then old(consumed)[channel := QueueNameFor(channel)] else old(consumed)
    {
      ChannelPlanRuns(View(), channel, delays, deadMax);
      ok := Declare(MainOf(channel));
      if ok { ok := DeclareRungs(channel, delays); }
      if ok { ok := Declare(ParkingOf(channel, deadMax)); }
      if ok { consumed := consumed[channel := QueueNameFor(channel)]; }
    }

    method SetupTopology(channels: seq<Channel>, delays: seq<nat>, deadMax: nat) returns (ok: bool)
      modifies this
      ensures ok <==> AllDeclared(old(View()), Plan(channels, delays, deadMax)).Some?
      ensures ok ==> Some(View()) == AllDeclared(old(View()), Plan(channels, delays, deadMax))
      ensures ok ==> ConsumesAll(consumed, channels)
    {
      ghost var before := View();
      for i := 0 to |channels|
        invariant AllDeclared(before, Plan(channels[..i], delays, deadMax)) == Some(View())
        invariant ConsumesAll(consumed, channels[..i])
      {
        ChannelNext(before, channels, delays, deadMax, i);
        ConsumesNext(consumed, channels, i);
        ok := SetupChannel(channels[i], delays, deadMax);
        if !ok { return; }
      }
      assert channels[..|channels|] == channels;
      ok := true;
    }
  }

  lemma {:induction false} PlanPrefix(channels: seq<Channel>, delays: seq<nat>, deadMax: nat, i: nat)
    requires i < |channels|
    ensures Plan(channels[..i + 1], delays, deadMax)
         == Plan(channels[..i], delays, deadMax) + ChannelPlan(channels[i], delays, deadMax)
    ensures Plan(channels[..i + 1], delays, deadMax) <= Plan(channels, delays, deadMax)
    decreases |channels|
  {
    assert channels[..i + 1][..i] == channels[..i];
    if i + 1 < |channels| {
      var front := channels[..|channels| - 1];
      assert front[..i + 1] == channels[..i + 1];
      PlanPrefix(front, delays, deadMax, i);
    } else {
      assert channels[..i + 1] == channels;
    }
  }

  lemma ConsumesNext(consumed: map<Channel, string>, channels: seq<Channel>, i: nat)
    requires i < |channels| && ConsumesAll(consumed, channels[..i])
    ensures ConsumesAll(consumed[channels[i] := QueueNameFor(channels[i])], channels[..i + 1])
  {
    assert channels[..i + 1] == channels[..i] + [channels[i]];
  }

  // One more channel: what its own plan does decides.
  lemma ChannelNext(t: Topology, channels: seq<Channel>, delays: seq<nat>, deadMax: nat, i: nat)
    requires i < |channels| && AllDeclared(t, Plan(channels[..i], delays, deadMax)).Some?
    ensures var u := AllDeclared(t, Plan(channels[..i], delays, deadMax)).value;
            var next := AllDeclared(u, ChannelPlan(channels[i], delays, deadMax));
            && AllDeclared(t, Plan(channels[..i + 1], delays, deadMax)) == next
            && (next.None? ==> AllDeclared(t, Plan(channels, delays, deadMax)).None?)
  {
    var done, next := Plan(channels[..i], delays, deadMax), Plan(channels[..i + 1], delays, deadMax);
    PlanPrefix(channels, delays, deadMax, i);
    Concatenated(t, done, ChannelPlan(channels[i], delays, deadMax));
    if AllDeclared(t, next).None? { RefusedStays(t, next, Plan(channels, delays, deadMax)); }
  }

  // One more declaration, and a refused one dooms every longer plan.
  lemma DeclareNext(t: Topology, plan: seq<Declaration>, k: nat)
    requires k < |plan| && AllDeclared(t, plan[..k]).Some?
    ensures AllDeclared(t, plan[..k + 1]) == Declared(AllDeclared(t, plan[..k]).value, plan[k])
    ensures AllDeclared(t, plan[..k + 1]).None? ==> AllDeclared(t, plan).None?
  {
    assert plan[..k + 1][..k] == plan[..k];
    if AllDeclared(t, plan[..k + 1]).None? { RefusedStays(t, plan[..k + 1], plan); }
  }

  lemma {:induction false} Concatenated(t: Topology, a: seq<Declaration>, b: seq<Declaration>)
    ensures AllDeclared(t, a + b)
         == match AllDeclared(t, a) case None => None case Some(u) => AllDeclared(u, b)
    decreases |b|
  {
    if b == [] {
      assert a + b == a;
    } else {
      Concatenated(t, a, b[..|b| - 1]);
      assert (a + b)[..|a + b| - 1] == a + b[..|b| - 1];
    }
  }

  lemma ChannelPlanRuns(t: Topology, channel: Channel, delays: seq<nat>, deadMax: nat)
    ensures AllDeclared(t, ChannelPlan(channel, delays, deadMax))
         == match Declared(t, MainOf(channel))
            case None => None
            case Some(u) => (
              match AllDeclared(u, Rungs(channel, delays))
              case None => None
              case Some(v) => Declared(v, ParkingOf(channel, deadMax)))
  {
    var main, rungs, parking := MainOf(channel), Rungs(channel, delays), ParkingOf(channel, deadMax);
    Concatenated(t, [main], rungs);
    Concatenated(t, [main] + rungs, [parking]);
    OneDeclaration(t, main);
    match AllDeclared(t, [main] + rungs)
    case None =>
    case Some(v) => OneDeclaration(v, parking);
  }

  lemma OneDeclaration(t: Topology, d: Declaration)
    ensures AllDeclared(t, [d]) == Declared(t, d)
  {
    assert [d][..0] == [];
  }

  lemma {:induction false} RefusedStays(t: Topology, done: seq<Declaration>, whole: seq<Declaration>)
    requires done <= whole && AllDeclared(t, done).None?
    ensures AllDeclared(t, whole).None?
    decreases |whole|
  {
    if |done| < |whole| {
      RefusedStays(t, done, whole[..|whole| - 1]);
    } else {
      assert done == whole;
    }
  }

  // ---- Where a publish ends up ----

  ghost predicate Functional(plan: seq<Declaration>) {
    forall d, e :: d in plan && e in plan && d.binding.queue == e.binding.queue ==> d == e
  }

  ghost predicate NoClash(t: Topology, plan: seq<Declaration>) {
    forall d :: d in plan && d.binding.queue in t.queues ==> t.queues[d.binding.queue] == d.args
  }

  ghost predicate Landed(t: Topology, plan: seq<Declaration>, u: Topology) {
    && u.bindings == t.bindings + (set d | d in plan :: d.binding)
    && (forall d :: d in plan ==> d.binding.queue in u.queues && u.queues[d.binding.queue] == d.args)
    && (forall q :: q in t.queues ==> q in u.queues && u.queues[q] == t.queues[q])
    && (forall q :: q in u.queues ==> q in t.queues || exists d :: d in plan && d.binding.queue == q)
  }

  /** The broker refuses a plan exactly when some queue exists with other arguments; otherwise every
      declared queue and binding is there, and nothing else is new. */
  lemma {:induction false} PlanLands(t: Topology, plan: seq<Declaration>)
    requires Functional(plan)
    ensures AllDeclared(t, plan).Some? <==> NoClash(t, plan)
    ensures AllDeclared(t, plan).Some? ==>
              Landed(t, plan, AllDeclared(t, plan).value)
    decreases |plan|
  {
    if plan != [] {
      var front, last := plan[..|plan| - 1], plan[|plan| - 1];
      assert plan == front + [last];
      PlanLands(t, front);
    }
  }

  // The three kinds of queue a channel has.
  datatype Kind = Fired | Stage(attempt: nat) | Parked

  function KeyOf(c: Channel, kind: Kind): string {
    match kind
    case Fired => RoutingKeyFor(c)
    case Stage(attempt) => RetryRoutingKeyFor(c, attempt)
    case Parked => DeadRoutingKeyFor(c)
  }

  function NameOf(c: Channel, kind: Kind): string {
    match kind
    case Fired => QueueNameFor(c)
    case Stage(attempt) => RetryQueueNameFor(c, attempt)
    case Parked => DeadQueueNameFor(c)
  }

  function ExchangeOf(kind: Kind): Exchange {
    if kind.Fired? then Notifications else DeadLetter
  }

  predicate OnLadder(kind: Kind, stages: nat) {
    kind.Stage? ==> 1 <= kind.attempt <= stages
  }

  function DeclarationOf(c: Channel, kind: Kind, delays: seq<nat>, deadMax: nat): Declaration
    requires OnLadder(kind, |delays|)
  {
    match kind
    case Fired => MainOf(c)
    case Stage(attempt) => RetryOf(c, attempt, delays[attempt - 1])
    case Parked => ParkingOf(c, deadMax)
  }

  lemma TagsDiffer(c: Channel, e: Channel)
    ensures Tag(c) == Tag(e) <==> c == e
    ensures Tag(c) != "*" && Tag(c) != "#"
  {
    assert Tag(c)[0] == (match c case Telegram => 't' case Email => 'e' case WebPush => 'p');
    assert Tag(e)[0] == (match e case Telegram => 't' case Email => 'e' case WebPush => 'p');
  }

  // What tells keys and names apart once the prefix is gone.
  function Suffix(kind: Kind): seq<string> {
    match kind
    case Fired => ["fired"]
    case Stage(attempt) => ["retry", IntText(attempt)]
    case Parked => ["dead"]
  }

  lemma SuffixesDiffer(kind: Kind, other: Kind)
    ensures Suffix(kind) == Suffix(other) <==> kind == other
    ensures Literal(Suffix(kind))
  {
    assert "fired"[0] == 'f' && "dead"[0] == 'd' && "retry"[0] == 'r';
    if kind.Stage? { NumberWord(kind.attempt); }
    if Suffix(kind) == Suffix(other) {
      assert Suffix(kind)[0][0] == Suffix(other)[0][0];
      if kind.Stage? {
        assert Suffix(kind)[1] == Suffix(other)[1];
        IntTextInjective(kind.attempt, other.attempt);
      }
    }
  }

  /** A key matches the binding of its own queue and of no other. */
  lemma KeyMatchesOwnBinding(c: Channel, kind: Kind, e: Channel, other: Kind)
    ensures Matches(Words(KeyOf(c, kind)), Words(KeyOf(e, other))) <==> c == e && kind == other
  {
    KeyShape(c, kind);
    KeyShape(e, other);
    TagsDiffer(c, e);
    SuffixesDiffer(kind, other);
    var pattern, key := [Tag(c)] + Suffix(kind), [Tag(e)] + Suffix(other);
    assert pattern[0] == Tag(c) && pattern[1..] == Suffix(kind);
    assert key[0] == Tag(e) && key[1..] == Suffix(other);
    LiteralMatchesItself(pattern, key);
  }

  lemma KeyShape(c: Channel, kind: Kind)
    ensures Words(KeyOf(c, kind)) == [Tag(c)] + Suffix(kind)
  {
    KeyWords(c, if kind.Stage? then kind.attempt else 0);
  }

  /** No two queues share a name. */
  lemma NamesDiffer(c: Channel, kind: Kind, e: Channel, other: Kind)
    ensures NameOf(c, kind) == NameOf(e, other) <==> c == e && kind == other
  {
    QueueWords(c, if kind.Stage? then kind.attempt else 0);
    QueueWords(e, if other.Stage? then other.attempt else 0);
    TagsDiffer(c, e);
    SuffixesDiffer(kind, other);
    if NameOf(c, kind) == NameOf(e, other) {
      var words := Words(NameOf(c, kind));
      assert words[1] == Tag(c) && words[1] == Tag(e);
      if !kind.Fired? { assert words[2..] == Suffix(kind); }
      if !other.Fired? { assert words[2..] == Suffix(other); }
    }
  }

  // A plan holds the declarations of its channels and nothing else.
  lemma {:induction false} PlanHolds(channels: seq<Channel>, delays: seq<nat>, deadMax: nat, d: Declaration)
    returns (c: Channel, kind: Kind)
    requires d in Plan(channels, delays, deadMax)
    ensures c in channels && OnLadder(kind, |delays|) && d == DeclarationOf(c, kind, delays, deadMax)
    decreases |channels|
  {
    var front, last := channels[..|channels| - 1], channels[|channels| - 1];
    if d in Plan(front, delays, deadMax) {
      c, kind := PlanHolds(front, delays, deadMax, d);
    } else {
      c, kind := last, Fired;
      if d in Rungs(last, delays) {
        var i :| 0 <= i < |delays| && Rungs(last, delays)[i] == d;
        kind := Stage(i + 1);
      } else if d == ParkingOf(last, deadMax) {
        kind := Parked;
      }
    }
  }

  lemma {:induction false} PlanHas(channels: seq<Channel>, delays: seq<nat>, deadMax: nat, c: Channel, kind: Kind)
    requires c in channels && OnLadder(kind, |delays|)
    ensures DeclarationOf(c, kind, delays, deadMax) in Plan(channels, delays, deadMax)
    decreases |channels|
  {
    var front, last := channels[..|channels| - 1], channels[|channels| - 1];
    assert channels == front + [last];
    if c in front {
      PlanHas(front, delays, deadMax, c, kind);
    } else if kind.Stage? {
      assert Rungs(c, delays)[kind.attempt - 1] == DeclarationOf(c, kind, delays, deadMax);
    }
  }

  lemma PlanIsFunctional(channels: seq<Channel>, delays: seq<nat>, deadMax: nat)
    ensures Functional(Plan(channels, delays, deadMax))
  {
    var plan := Plan(channels, delays, deadMax);
    forall d, e | d in plan && e in plan && d.binding.queue == e.binding.queue ensures d == e {
      var c, kind := PlanHolds(channels, delays, deadMax, d);
      var c', kind' := PlanHolds(channels, delays, deadMax, e);
      assert d.binding.queue == NameOf(c, kind) && e.binding.queue == NameOf(c', kind');
      NamesDiffer(c, kind, c', kind');
    }
  }

  /** The names as deployed. */
  lemma DeployedNames()
    ensures RoutingKeyFor(Telegram) == "telegram.fired" && QueueNameFor(Telegram) == "notifications.telegram"
    ensures RoutingKeyFor(Email) == "email.fired" && QueueNameFor(Email) == "notifications.email"
    ensures RoutingKeyFor(WebPush) == "push.fired" && QueueNameFor(WebPush) == "notifications.push"
    ensures DeadRoutingKeyFor(Email) == "email.dead" && DeadQueueNameFor(Email) == "notifications.email.dead"
    ensures RetryRoutingKeyFor(WebPush, 2) == "push.retry.2"
    ensures RetryQueueNameFor(Telegram, 1) == "notifications.telegram.retry.1"
  {
    assert IntText(2) == "2" && IntText(1) == "1";
  }

  // The queues a publish reaches.
  ghost function Routed(t: Topology, exchange: Exchange, key: string): set<string> {
    set b | b in t.bindings && b.exchange == exchange && Matches(Words(b.pattern), Words(key)) :: b.queue
  }

  const BARE := Topology(map[], {})

  lemma ReachesOnlyItsOwn(
      channels: seq<Channel>, delays: seq<nat>, deadMax: nat, t: Topology, c: Channel, kind: Kind, q: string)
    requires Landed(BARE, Plan(channels, delays, deadMax), t) && q in Routed(t, ExchangeOf(kind), KeyOf(c, kind))
    ensures c in channels && OnLadder(kind, |delays|) && q == NameOf(c, kind)
  {
    var plan, key := Plan(channels, delays, deadMax), KeyOf(c, kind);
    var b :| b in t.bindings && b.queue == q && Matches(Words(b.pattern), Words(key));
    var d :| d in plan && d.binding == b;
    var e, other := PlanHolds(channels, delays, deadMax, d);
    assert b.pattern == KeyOf(e, other) && b.queue == NameOf(e, other);
    KeyMatchesOwnBinding(e, other, c, kind);
  }

  lemma ReachesItsOwn(channels: seq<Channel>, delays: seq<nat>, deadMax: nat, t: Topology, c: Channel, kind: Kind)
    requires Landed(BARE, Plan(channels, delays, deadMax), t) && c in channels && OnLadder(kind, |delays|)
    ensures NameOf(c, kind) in Routed(t, ExchangeOf(kind), KeyOf(c, kind))
    ensures NameOf(c, kind) in t.queues
         && t.queues[NameOf(c, kind)] == DeclarationOf(c, kind, delays, deadMax).args
  {
    PlanHas(channels, delays, deadMax, c, kind);
    var d := DeclarationOf(c, kind, delays, deadMax);
    assert d.binding == Binding(NameOf(c, kind), ExchangeOf(kind), KeyOf(c, kind)) && d.binding in t.bindings;
    KeyMatchesOwnBinding(c, kind, c, kind);
  }

  ghost function SetUp(channels: seq<Channel>, delays: seq<nat>, deadMax: nat): Option<Topology> {
    AllDeclared(BARE, Plan(channels, delays, deadMax))
  }

  /** Topology: on a bare broker the setup is never refused, and from then on a key reaches exactly
      its own queue when its channel is registered and its stage is on the ladder, and no queue at
      all otherwise. A retry queue waits the delay of its stage and hands the message back to the
      exchange and key that lead to the channel's main queue; the main and dead queues keep what they
      hold, the dead one up to its ceiling. */
  lemma KeysReachTheirQueue(channels: seq<Channel>, delays: seq<nat>, deadMax: nat, c: Channel, kind: Kind)
    ensures SetUp(channels, delays, deadMax).Some?
    ensures var t := SetUp(channels, delays, deadMax).value;
            && Routed(t, ExchangeOf(kind), KeyOf(c, kind))
               == (if c in channels && OnLadder(kind, |delays|) then {NameOf(c, kind)} else {})
            && (c in channels && OnLadder(kind, |delays|) ==>
                  && NameOf(c, kind) in t.queues
                  && var queue := t.queues[NameOf(c, kind)];
                  // Only a retry stage lets messages go by itself, only the dead queue has a ceiling.
                  && queue.ttl == (if kind.Stage? then Some(delays[kind.attempt - 1]) else None)
                  && queue.onExpiry == (if kind.Stage? then Some((ExchangeOf(Fired), KeyOf(c, Fired))) else None)
                  && queue.maxLength == if kind.Parked? then Some(deadMax) else None)
  {
    PlanIsFunctional(channels, delays, deadMax);
    PlanLands(BARE, Plan(channels, delays, deadMax));
    var t := SetUp(channels, delays, deadMax).value;
    forall q | q in Routed(t, ExchangeOf(kind), KeyOf(c, kind))
      ensures c in channels && OnLadder(kind, |delays|) && q == NameOf(c, kind)
    {
      ReachesOnlyItsOwn(channels, delays, deadMax, t, c, kind, q);
    }
    if c in channels && OnLadder(kind, |delays|) {
      ReachesItsOwn(channels, delays, deadMax, t, c, kind);
    }
  }

  /** Every republish of every run of the delivery protocol is addressed to exactly one declared
      queue: the retry stage one above the attempts already made. */
  lemma RepublishReachesOneQueue(
      cfg: D.Config, states: seq<D.State>, steps: seq<D.Step>, i: nat, channels: seq<Channel>, delays: seq<nat>)
    requires D.Behaviour(cfg, states, steps) && i < |steps| && steps[i].PublishRetry?
    requires cfg.stages == |delays| && cfg.queues == set c | c in channels
    ensures steps[i].h in states[i].handlers
    ensures var h := states[i].handlers[steps[i].h];
            var t := SetUp(channels, delays, cfg.deadMax);
            && t.Some?
            && Routed(t.value, DeadLetter, RetryRoutingKeyFor(h.body.Chan(), h.attempts + 1))
               == {RetryQueueNameFor(h.body.Chan(), h.attempts + 1)}
  {
    Ladder.HeadersStayOnLadder(cfg, states, steps, i);
    Ladder.CoverAlways(cfg, states, steps, i);
    var h := states[i].handlers[steps[i].h];
    assert Coverage.HandlerSafe(cfg, states[i], h);
    KeysReachTheirQueue(channels, delays, cfg.deadMax, h.body.Chan(), Stage(h.attempts + 1));
  }
}
