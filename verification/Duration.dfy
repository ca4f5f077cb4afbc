/**
 Durations are typed as seconds or as groups such as 1h30m, and shown in at most two units.
 Numbers are exact here; in the program they are below 2^53.
 */
module Duration {
  import opened Options
  import opened Whitespace

  // ---------------------------------------------------------------------------
  // Numbers
  // ---------------------------------------------------------------------------

  predicate IsDigit(c: char) { '0' <= c <= '9' }

  predicate AllDigits(s: string) { s != "" && forall i: nat :: i < |s| ==> IsDigit(s[i]) }

  function DigitValue(c: char): nat
    requires IsDigit(c)
  {
    c as nat - '0' as nat
  }

  function Number(s: string): nat
    requires forall i: nat :: i < |s| ==> IsDigit(s[i])
  {
    if s == "" then 0 else 10 * Number(s[..|s| - 1]) + DigitValue(s[|s| - 1])
  }

  function Decimal(n: nat): string {
    (if n < 10 then "" else Decimal(n / 10)) + [('0' as nat + n % 10) as char]
  }

  lemma {:induction false} DecimalIsNumber(n: nat)
    ensures AllDigits(Decimal(n)) && Number(Decimal(n)) == n
  {
    var c := ('0' as nat + n % 10) as char;
    if n >= 10 {
      DecimalIsNumber(n / 10);
      assert Decimal(n)[..|Decimal(n)| - 1] == Decimal(n / 10);
    } else {
      assert Decimal(n) == [c] && [c][..0] == "";
    }
  }

  // ---------------------------------------------------------------------------
  // The parser
  // ---------------------------------------------------------------------------

  predicate IsUnit(c: char) { c in {'s', 'm', 'h', 'd'} }

  /** So many seconds, minutes, hours or days. */
  function InSeconds(n: nat, c: char): nat
    requires IsUnit(c)
  {
    if c == 's' then n else if c == 'm' then 60 * n else if c == 'h' then 3600 * n else 86400 * n
  }

  function DigitRun(s: string): (n: nat)
    ensures n <= |s| && (forall i: nat :: i < n ==> IsDigit(s[i])) && (n < |s| ==> !IsDigit(s[n]))
  {
    if s != "" && IsDigit(s[0]) then 1 + DigitRun(s[1..]) else 0
  }

  /** A group begins the text; none of its digits can be given back, since a unit is no digit. */
  predicate GroupAt(s: string) {
    var n := DigitRun(s);
    0 < n < |s| && IsUnit(s[n])
  }

  function GroupSeconds(s: string): nat
    requires GroupAt(s)
  {
    InSeconds(Number(s[..DigitRun(s)]), s[DigitRun(s)])
  }

  /** The sum over a text made of groups. */
  function Groups(s: string): Option<nat> {
    if s == "" then Some(0)
    else if !GroupAt(s) then None
    else
      Plus(GroupSeconds(s), Groups(s[DigitRun(s) + 1..]))
  }

  function Parsed(input: string): Option<nat> {
    var s := Trim(input);
    if AllDigits(s) then Some(Number(s)) else if s == "" then None else Groups(s)
  }

  function Plus(n: nat, rest: Option<nat>): Option<nat> { if rest.None? then None else Some(n + rest.value) }

  lemma OneMoreGroup(rest: string, total: nat)
    requires GroupAt(rest)
    ensures Plus(total, Groups(rest)) == Plus(total + GroupSeconds(rest), Groups(rest[DigitRun(rest) + 1..]))
  {
    GroupsStep(rest);
  }

  lemma GroupsStep(s: string)
    requires GroupAt(s)
    ensures Groups(s) == Plus(GroupSeconds(s), Groups(s[DigitRun(s) + 1..]))
  {
  }

  /** The sticky matches from the start of the text, as far as they go. */
  method SumGroups(s: string) returns (total: nat, consumed: nat)
    ensures consumed <= |s| && Groups(s) == (if consumed == |s| then Some(total) else None)
  {
    total, consumed := 0, 0;
    var rest := s;
    while GroupAt(rest)
      invariant consumed + |rest| == |s|
      invariant Groups(s) == Plus(total, Groups(rest))
      decreases |rest|
    {
      OneMoreGroup(rest, total);
      total := total + GroupSeconds(rest);
      consumed := consumed + DigitRun(rest) + 1;
      rest := rest[DigitRun(rest) + 1..];
    }
  }

  /** None is the usage error. */
  method ParseDuration(input: string) returns (seconds: Option<nat>)
    ensures seconds == Parsed(input)
  {
    var s := Trim(input);
    if AllDigits(s) { return Some(Number(s)); }
    var total, consumed := SumGroups(s);
    seconds := if consumed != |s| || consumed == 0 then None else Some(total);
  }

  // ---------------------------------------------------------------------------
  // What it accepts
  // ---------------------------------------------------------------------------

  datatype Group = Group(digits: string, unit: char)

  predicate IsGroup(g: Group) { AllDigits(g.digits) && IsUnit(g.unit) }

  predicate AreGroups(gs: seq<Group>) { forall i: nat :: i < |gs| ==> IsGroup(gs[i]) }

  function Text(gs: seq<Group>): string {
    if gs == [] then "" else gs[0].digits + ([gs[0].unit] + Text(gs[1..]))
  }

  function Value(gs: seq<Group>): nat
    requires AreGroups(gs)
  {
    if gs == [] then 0 else InSeconds(Number(gs[0].digits), gs[0].unit) + Value(gs[1..])
  }

  lemma {:induction false} RunOfGroup(digits: string, unit: char, rest: string)
    requires (forall i: nat :: i < |digits| ==> IsDigit(digits[i])) && IsUnit(unit)
    ensures DigitRun(digits + ([unit] + rest)) == |digits|
    decreases |digits|
  {
    if digits != "" {
      assert (digits + ([unit] + rest))[1..] == digits[1..] + ([unit] + rest);
      RunOfGroup(digits[1..], unit, rest);
    }
  }

  lemma FirstGroup(g: Group, rest: string)
    requires IsGroup(g)
    ensures var s := g.digits + ([g.unit] + rest);
            && GroupAt(s) && s[..DigitRun(s)] == g.digits && s[DigitRun(s)] == g.unit
            && s[DigitRun(s) + 1..] == rest
            && GroupSeconds(s) == InSeconds(Number(g.digits), g.unit)
  {
    RunOfGroup(g.digits, g.unit, rest);
  }

  lemma FirstGroupSum(g: Group, rest: string)
    requires IsGroup(g)
    ensures Groups(g.digits + ([g.unit] + rest)) == Plus(InSeconds(Number(g.digits), g.unit), Groups(rest))
  {
    FirstGroup(g, rest);
    GroupsStep(g.digits + ([g.unit] + rest));
  }

  lemma {:induction false} GroupsHaveValue(gs: seq<Group>)
    requires AreGroups(gs)
    ensures Groups(Text(gs)) == Some(Value(gs))
    decreases |gs|
  {
    if gs != [] {
      var g, rest := gs[0], gs[1..];
      FirstOfText(gs);
      GroupsHaveValue(rest);
      GroupInFront(g, Text(rest), Value(rest), Text(gs), Value(gs));
    }
  }

  lemma GroupInFront(g: Group, text: string, sum: nat, all: string, value: nat)
    requires IsGroup(g) && Groups(text) == Some(sum)
    requires all == g.digits + ([g.unit] + text) && value == InSeconds(Number(g.digits), g.unit) + sum
    ensures Groups(all) == Some(value)
  {
    OneGroupMore(g, text, sum);
  }

  lemma OneGroupMore(g: Group, rest: string, sum: nat)
    requires IsGroup(g) && Groups(rest) == Some(sum)
    ensures Groups(g.digits + ([g.unit] + rest)) == Some(InSeconds(Number(g.digits), g.unit) + sum)
  {
    FirstGroupSum(g, rest);
  }

  lemma FirstOfText(gs: seq<Group>)
    requires AreGroups(gs) && gs != []
    ensures IsGroup(gs[0]) && AreGroups(gs[1..])
    ensures Text(gs) == gs[0].digits + ([gs[0].unit] + Text(gs[1..]))
    ensures Value(gs) == InSeconds(Number(gs[0].digits), gs[0].unit) + Value(gs[1..])
  {
  }

  lemma TextCons(g: Group, gs: seq<Group>)
    ensures Text([g] + gs) == g.digits + ([g.unit] + Text(gs))
    ensures IsGroup(g) && AreGroups(gs) ==> AreGroups([g] + gs)
  {
    assert ([g] + gs)[1..] == gs;
  }

  lemma CutGroup(s: string, n: nat)
    requires n < |s|
    ensures s == s[..n] + ([s[n]] + s[n + 1..])
  {
  }

  lemma {:induction false} ValueHasGroups(s: string) returns (gs: seq<Group>)
    requires Groups(s).Some?
    ensures AreGroups(gs) && Text(gs) == s
    decreases |s|
  {
    gs := [];
    if s != "" {
      var n := DigitRun(s);
      var rest := ValueHasGroups(s[n + 1..]);
      var g := Group(s[..n], s[n]);
      gs := [g] + rest;
      TextCons(g, rest);
      CutGroup(s, n);
    }
  }

  ghost predicate MadeOfGroups(s: string, seconds: nat) {
    exists gs: seq<Group> :: gs != [] && AreGroups(gs) && Text(gs) == s && Value(gs) == seconds
  }

  /** Accepted, and with what value: all digits, or one or more groups, around which white
      space is ignored. */
  lemma AcceptsExactly(input: string, seconds: nat)
    ensures Parsed(input) == Some(seconds) <==>
            var s := Trim(input);
            (AllDigits(s) && Number(s) == seconds) || (!AllDigits(s) && MadeOfGroups(s, seconds))
  {
    var s := Trim(input);
    if MadeOfGroups(s, seconds) {
      var gs :| gs != [] && AreGroups(gs) && Text(gs) == s && Value(gs) == seconds;
      GroupsHaveValue(gs);
      assert s != "" by { FirstGroup(gs[0], Text(gs[1..])); }
    }
    if s != "" && !AllDigits(s) && Groups(s) == Some(seconds) {
      var gs := ValueHasGroups(s);
      GroupsHaveValue(gs);
      assert MadeOfGroups(s, seconds);
    }
  }

  // ---------------------------------------------------------------------------
  // The printer
  // ---------------------------------------------------------------------------

  function One(a: nat, u: char): string { Decimal(a) + [u] }

  function Two(a: nat, u: char, b: nat, v: char): string { Decimal(a) + [u] + Decimal(b) + [v] }

  function FormatSeconds(total: nat): string {
    if total < 60 then One(total, 's')
    else if total < 3600 then One(total / 60, 'm')
    else if total < 86400 then
      var h, m := total / 3600, total % 3600 / 60;
      if m != 0 then Two(h, 'h', m, 'm') else One(h, 'h')
    else
      var d, h := total / 86400, total % 86400 / 3600;
      if h != 0 then Two(d, 'd', h, 'h') else One(d, 'd')
  }

  /** Seconds below a minute, minutes below a day, hours from one day up. */
  function DisplayUnit(total: nat): (unit: nat)
    ensures unit > 0
  {
    if total < 60 then 1 else if total < 86400 then 60 else 3600
  }

  function RoundDown(total: nat): nat { total - total % DisplayUnit(total) }

  /** The text is made of groups that add up to this many seconds. */
  predicate Shows(s: string, gs: seq<Group>, seconds: nat) {
    gs != [] && AreGroups(gs) && Text(gs) == s && Value(gs) == seconds
  }

  lemma OneShows(a: nat, u: char) returns (gs: seq<Group>)
    requires IsUnit(u)
    ensures Shows(One(a, u), gs, InSeconds(a, u)) && gs == [Group(Decimal(a), u)]
  {
    DecimalIsNumber(a);
    var g := Group(Decimal(a), u);
    gs := [g];
    OneGroup(g);
  }

  lemma TwoShow(a: nat, u: char, b: nat, v: char) returns (gs: seq<Group>)
    requires IsUnit(u) && IsUnit(v)
    ensures Shows(Two(a, u, b, v), gs, InSeconds(a, u) + InSeconds(b, v))
    ensures gs == [Group(Decimal(a), u), Group(Decimal(b), v)]
  {
    DecimalIsNumber(a);
    DecimalIsNumber(b);
    var g, h := Group(Decimal(a), u), Group(Decimal(b), v);
    gs := [g, h];
    TwoGroups(g, h);
  }

  lemma OneGroup(g: Group)
    requires IsGroup(g)
    ensures Text([g]) == g.digits + [g.unit] && Value([g]) == InSeconds(Number(g.digits), g.unit)
  {
    assert [g][1..] == [];
  }

  lemma TwoGroups(g: Group, h: Group)
    requires IsGroup(g) && IsGroup(h)
    ensures Text([g, h]) == g.digits + [g.unit] + h.digits + [h.unit]
    ensures Value([g, h]) == InSeconds(Number(g.digits), g.unit) + InSeconds(Number(h.digits), h.unit)
  {
    assert [g, h][1..] == [h];
    OneGroup(h);
  }

  /** Dividing by a unit and then by a smaller one loses only what the smaller one loses. */
  lemma Parts(total: nat)
    ensures total - total % 60 == 3600 * (total / 3600) + 60 * (total % 3600 / 60)
    ensures total - total % 3600 == 86400 * (total / 86400) + 3600 * (total % 86400 / 3600)
  {
    var h, m := total / 3600, total % 3600 / 60;
    By60(total, 60 * h + m, total % 3600 % 60);
    var d, k := total / 86400, total % 86400 / 3600;
    By3600(total, 24 * d + k, total % 86400 % 3600);
  }

  lemma By60(n: nat, q: nat, r: nat)
    requires r < 60 && n == 60 * q + r
    ensures n / 60 == q && n % 60 == r
  {
  }

  lemma By3600(n: nat, q: nat, r: nat)
    requires r < 3600 && n == 3600 * q + r
    ensures n / 3600 == q && n % 3600 == r
  {
  }

  lemma By86400(n: nat, q: nat, r: nat)
    requires r < 86400 && n == 86400 * q + r
    ensures n / 86400 == q && n % 86400 == r
  {
  }

  lemma {:induction false} EndsInUnit(gs: seq<Group>)
    requires AreGroups(gs) && gs != []
    ensures var s := Text(gs); s != "" && IsDigit(s[0]) && IsUnit(s[|s| - 1])
    decreases |gs|
  {
    if |gs| > 1 { EndsInUnit(gs[1..]); }
  }

  lemma NotTrimmed(s: string)
    requires s != "" && IsDigit(s[0]) && IsUnit(s[|s| - 1])
    ensures Trim(s) == s && !AllDigits(s)
  {
  }

  /** Reading back what is shown gives the duration rounded down to its display unit. */
  lemma FormatParse(total: nat)
    ensures Parsed(FormatSeconds(total)) == Some(RoundDown(total))
  {
    var gs := FormatIsCanonical(total);
    EndsInUnit(gs);
    GroupsHaveValue(gs);
    NotTrimmed(Text(gs));
  }

  function NextUnit(u: char): char { if u == 'd' then 'h' else 'm' }

  /** The largest unit the duration fills, or seconds. */
  ghost predicate LargestUnit(total: nat, u: char) {
    && IsUnit(u) && (InSeconds(1, u) <= total || u == 's')
    && forall v: char :: IsUnit(v) && InSeconds(1, v) <= total ==> InSeconds(1, v) <= InSeconds(1, u)
  }

  /** A plain number: no zero in front, and not 0 itself but for no time at all. */
  ghost predicate Plain(total: nat, digits: string) {
    exists n: nat :: digits == Decimal(n) && (n == 0 ==> total == 0)
  }

  /** Less than one of that unit, counted in the next smaller one. */
  ghost predicate RestFits(g: Group, u: char) {
    && IsGroup(g) && u in {'d', 'h'} && g.unit == NextUnit(u)
    && InSeconds(Number(g.digits), g.unit) < InSeconds(1, u)
  }

  /** How a duration is written: in the largest unit that it fills, and in the next smaller
      one the rest that the first leaves, if that is any. */
  ghost predicate Canonical(total: nat, gs: seq<Group>) {
    && AreGroups(gs) && 1 <= |gs| <= 2 && LargestUnit(total, gs[0].unit)
    && Plain(total, gs[0].digits)
    && (|gs| == 2 ==> RestFits(gs[1], gs[0].unit) && Plain(total, gs[1].digits))
  }

  /** What is shown is that, and adds up to the duration rounded down to its display unit. */
  lemma FormatIsCanonical(total: nat) returns (gs: seq<Group>)
    ensures Shows(FormatSeconds(total), gs, RoundDown(total)) && Canonical(total, gs)
  {
    Parts(total);
    if total < 3600 {
      gs := BelowAnHour(total);
    } else if total < 86400 {
      gs := WithRest(total, total / 3600, 'h', total % 3600 / 60);
    } else {
      gs := WithRest(total, total / 86400, 'd', total % 86400 / 3600);
    }
  }

  lemma BelowAnHour(total: nat) returns (gs: seq<Group>)
    requires total < 3600
    ensures Shows(FormatSeconds(total), gs, RoundDown(total)) && Canonical(total, gs)
  {
    if total < 60 {
      gs := OneShows(total, 's');
      OneIsCanonical(total, total, 's');
    } else {
      gs := OneShows(total / 60, 'm');
      OneIsCanonical(total, total / 60, 'm');
    }
  }

  lemma WithRest(total: nat, a: nat, u: char, b: nat) returns (gs: seq<Group>)
    requires u in {'d', 'h'} && a > 0 && LargestUnit(total, u) && InSeconds(b, NextUnit(u)) < InSeconds(1, u)
    ensures var text := if b != 0 then Two(a, u, b, NextUnit(u)) else One(a, u);
            Shows(text, gs, InSeconds(a, u) + InSeconds(b, NextUnit(u)))
    ensures Canonical(total, gs)
  {
    if b != 0 {
      gs := TwoShow(a, u, b, NextUnit(u));
      TwoIsCanonical(total, a, u, b, NextUnit(u));
    } else {
      gs := OneShows(a, u);
      OneIsCanonical(total, a, u);
    }
  }

  lemma PlainDecimal(total: nat, n: nat)
    requires n == 0 ==> total == 0
    ensures Plain(total, Decimal(n)) && AllDigits(Decimal(n)) && Number(Decimal(n)) == n
  {
    DecimalIsNumber(n);
  }

  lemma OneIsCanonical(total: nat, a: nat, u: char)
    requires LargestUnit(total, u) && (a == 0 ==> total == 0)
    ensures Canonical(total, [Group(Decimal(a), u)])
  {
    PlainDecimal(total, a);
    CanonicalGroup(total, Group(Decimal(a), u));
  }

  lemma CanonicalGroup(total: nat, g: Group)
    requires IsGroup(g) && LargestUnit(total, g.unit) && Plain(total, g.digits)
    ensures Canonical(total, [g])
  {
  }

  lemma TwoIsCanonical(total: nat, a: nat, u: char, b: nat, v: char)
    requires LargestUnit(total, u) && a > 0 && b > 0 && u in {'d', 'h'} && v == NextUnit(u)
    requires InSeconds(b, v) < InSeconds(1, u)
    ensures Canonical(total, [Group(Decimal(a), u), Group(Decimal(b), v)])
  {
    PlainDecimal(total, a);
    PlainDecimal(total, b);
    var h := Group(Decimal(b), v);
    assert RestFits(h, u);
    CanonicalPair(total, Group(Decimal(a), u), h);
  }

  lemma CanonicalPair(total: nat, g: Group, h: Group)
    requires IsGroup(g) && LargestUnit(total, g.unit) && Plain(total, g.digits)
    requires RestFits(h, g.unit) && Plain(total, h.digits)
    ensures Canonical(total, [g, h])
  {
    var gs := [g, h];
    assert gs[0] == g && gs[1] == h;
    assert AreGroups(gs) by { assert IsGroup(h); }
  }

  /** What is shown for that result is the same text again. */
  lemma FormatIsStable(total: nat)
    ensures FormatSeconds(RoundDown(total)) == FormatSeconds(total)
    ensures RoundDown(RoundDown(total)) == RoundDown(total)
  {
    if total >= 86400 {
      StableDays(total, total - total % 3600);
    } else if total >= 60 {
      StableMinutes(total, total - total % 60);
    }
  }

  lemma StableDays(total: nat, r: nat)
    requires total >= 86400 && r == total - total % 3600
    ensures r >= 86400 && r % 3600 == 0 && r / 86400 == total / 86400 && r % 86400 / 3600 == total % 86400 / 3600
  {
    Parts(total);
    var d, h := total / 86400, total % 86400 / 3600;
    By86400(r, d, 3600 * h);
    By3600(3600 * h, h, 0);
    By3600(r, 24 * d + h, 0);
  }

  lemma StableMinutes(total: nat, r: nat)
    requires 60 <= total < 86400 && r == total - total % 60
    ensures 60 <= r <= total && (r < 3600 <==> total < 3600) && r % 60 == 0 && r / 60 == total / 60
    ensures r / 3600 == total / 3600 && r % 3600 / 60 == total % 3600 / 60
  {
    Parts(total);
    var h, m := total / 3600, total % 3600 / 60;
    By3600(r, h, 60 * m);
    By60(60 * m, m, 0);
    By60(r, 60 * h + m, 0);
    By60(total, 60 * h + m, total % 60);
  }
}
