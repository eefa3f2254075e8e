/** Local quiet hours: two "HH:MM" bounds that may wrap past midnight. The local minute of the day is an
    input; converting an instant to it is the runtime's business. */
module QuietHours {
  import opened Decimal
  import opened Domain

  const DAY: nat := 1440

  function Two(a: char, b: char): nat
    requires IsDigit(a) && IsDigit(b)
  {
    10 * (a as int - '0' as int) + (b as int - '0' as int)
  }

  // `parseHHMM`: exactly two digits, a colon and two digits, within the clock.
  function ParseHHMM(text: string): Option<nat> {
    if |text| != 5 || text[2] != ':' || !IsDigit(text[0]) || !IsDigit(text[1]) || !IsDigit(text[3]) || !IsDigit(text[4])
    then None
    else
      var h, m := Two(text[0], text[1]), Two(text[3], text[4]);
      if h > 23 || m > 59 then None else Some(h * 60 + m)
  }

  function Clock(minute: nat): string
    requires minute < DAY
  {
    var h, m := minute / 60, minute % 60;
    [Digit(h / 10), Digit(h % 10), ':', Digit(m / 10), Digit(m % 10)]
  }

  /** The parser accepts exactly the clock texts, and reads each back. */
  lemma ParseIffClock(text: string, minute: nat)
    ensures ParseHHMM(text) == Some(minute) <==> minute < DAY && text == Clock(minute)
  {
    if ParseHHMM(text) == Some(minute) {
      var h, m := Two(text[0], text[1]), Two(text[3], text[4]);
      assert minute / 60 == h && minute % 60 == m;
      assert text[0] == Digit(h / 10) && text[1] == Digit(h % 10);
      assert text[3] == Digit(m / 10) && text[4] == Digit(m % 10);
    }
  }

  // `isWithinQuietHours`, given the local minute.
  predicate WithinQuietHours(now: nat, start: Option<string>, end: Option<string>) {
    if start.None? || end.None? then false else
    var from, to := ParseHHMM(start.value), ParseHHMM(end.value);
    if from.None? || to.None? || from == to then false
    else if from.value < to.value then from.value <= now < to.value
    else from.value <= now || now < to.value
  }

  // The minute of the day `k` minutes later.
  function Later(from: nat, k: nat): nat {
    (from + k) % DAY
  }

  // Going forward from `from`, the minute `now` comes before `to`.
  ghost predicate OnTheWay(from: nat, now: nat, to: nat) {
    exists k: nat, n: nat :: k < n < DAY && Later(from, k) == now && Later(from, n) == to
  }

  lemma ForwardFrom(from: nat, x: nat) returns (k: nat)
    requires from < DAY && x < DAY
    ensures k == if from <= x then x - from else x + DAY - from
    ensures k < DAY && Later(from, k) == x
    ensures forall j: nat :: j < DAY && Later(from, j) == x ==> j == k
  {
    k := if from <= x then x - from else x + DAY - from;
  }

  /** Meaning of the window: it holds exactly when both bounds are well formed and, counting minutes
      forward from the start, now is reached before the end; whether that passes midnight or not. */
  lemma QuietIffOnTheWay(now: nat, start: Option<string>, end: Option<string>)
    requires now < DAY
    ensures WithinQuietHours(now, start, end) <==>
            && start.Some? && end.Some?
            && ParseHHMM(start.value).Some? && ParseHHMM(end.value).Some?
            && OnTheWay(ParseHHMM(start.value).value, now, ParseHHMM(end.value).value)
  {
    if start.Some? && end.Some? && ParseHHMM(start.value).Some? && ParseHHMM(end.value).Some? {
      var from, to := ParseHHMM(start.value).value, ParseHHMM(end.value).value;
      ParseIffClock(start.value, from);
      ParseIffClock(end.value, to);
      var k := ForwardFrom(from, now);
      var n := ForwardFrom(from, to);
      assert k < n ==> OnTheWay(from, now, to);
    }
  }
}
