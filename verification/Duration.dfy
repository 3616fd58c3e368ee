/** The language of `spec.duration`: the validation pattern, its meaning in seconds, and a printer. */
module Duration {
  import opened Wrappers
  import opened Calendar
  import opened TimeFormat

  // ---- The pattern ----

  /** The regular expressions the pattern is made of; `Digits` is one or more decimal digits. */
  datatype Regex =
    | Digits
    | Chr(c: char)
    | Opt(r: Regex)
    | Cat(first: Regex, second: Regex)
    | Alt(left: Regex, right: Regex)

  /** The whole string matches. */
  predicate Accepts(r: Regex, s: string) {
    match r
    case Digits => s != "" && AllDigits(s)
    case Chr(c) => s == [c]
    case Opt(q) => s == "" || Accepts(q, s)
    case Cat(q1, q2) => exists i | 0 <= i <= |s| :: Accepts(q1, s[..i]) && Accepts(q2, s[i..])
    case Alt(q1, q2) => Accepts(q1, s) || Accepts(q2, s)
  }

  function Part(unit: char): Regex {
    Cat(Digits, Chr(unit))
  }

  /** The five alternatives, one for each unit a duration can start with. */
  const PATTERN: Regex :=
    Alt(Cat(Part('w'), Cat(Opt(Part('d')), Cat(Opt(Part('h')), Cat(Opt(Part('m')), Opt(Part('s')))))),
    Alt(Cat(Part('d'), Cat(Opt(Part('h')), Cat(Opt(Part('m')), Opt(Part('s'))))),
    Alt(Cat(Part('h'), Cat(Opt(Part('m')), Opt(Part('s')))),
    Alt(Cat(Part('m'), Opt(Part('s'))),
    Part('s')))))

  // ---- The same language as lists of amounts ----

  const UNITS := "wdhms"

  /** An amount: digits and the position of its unit in `UNITS`, the largest first. */
  datatype Amount = Amount(digits: string, unit: int)

  predicate ValidAmount(a: Amount) {
    a.digits != "" && AllDigits(a.digits) && 0 <= a.unit < 5
  }

  /** Units strictly descend in size, none larger than that at `from`. */
  predicate Descending(amounts: seq<Amount>, from: int) {
    amounts != [] ==>
      && ValidAmount(amounts[0]) && from <= amounts[0].unit
      && Descending(amounts[1..], amounts[0].unit + 1)
  }

  function Show(a: Amount): string
    requires ValidAmount(a)
  {
    a.digits + [UNITS[a.unit]]
  }

  function Render(amounts: seq<Amount>, from: int): string
    requires Descending(amounts, from)
  {
    if amounts == [] then "" else Show(amounts[0]) + Render(amounts[1..], amounts[0].unit + 1)
  }

  /** Optional amounts of all units from the one at `from` on. */
  function Tail(from: int): Regex
    requires 0 <= from < 5
    decreases 5 - from
  {
    if from == 4 then Opt(Part('s')) else Cat(Opt(Part(UNITS[from])), Tail(from + 1))
  }

  predicate IsRendering(s: string, amounts: seq<Amount>, from: int) {
    Descending(amounts, from) && Render(amounts, from) == s
  }

  lemma PartMatchesOnly(from: int, s: string) returns (a: Amount)
    requires 0 <= from < 5 && Accepts(Part(UNITS[from]), s)
    ensures ValidAmount(a) && a.unit == from && Show(a) == s
  {
    var i :| 0 <= i <= |s| && Accepts(Digits, s[..i]) && Accepts(Chr(UNITS[from]), s[i..]);
    assert s == s[..i] + s[i..];
    a := Amount(s[..i], from);
  }

  lemma PartMatchesAll(a: Amount)
    requires ValidAmount(a)
    ensures Accepts(Part(UNITS[a.unit]), Show(a))
  {
    var s := Show(a);
    assert s[..|a.digits|] == a.digits && s[|a.digits|..] == [UNITS[a.unit]];
    assert Accepts(Digits, s[..|a.digits|]) && Accepts(Chr(UNITS[a.unit]), s[|a.digits|..]);
  }

  lemma Prepend(s: string, i: nat, a: Amount, rest: seq<Amount>, from: int)
    requires i <= |s| && ValidAmount(a) && from <= a.unit
    requires Show(a) == s[..i] && IsRendering(s[i..], rest, a.unit + 1)
    ensures IsRendering(s, [a] + rest, from)
  {
    assert s == s[..i] + s[i..] && ([a] + rest)[1..] == rest;
  }

  /** One optional amount in front of amounts of smaller units. */
  lemma AmountInFront(from: int, s: string, i: nat, rest: seq<Amount>) returns (amounts: seq<Amount>)
    requires 0 <= from < 5 && i <= |s|
    requires Accepts(Opt(Part(UNITS[from])), s[..i]) && IsRendering(s[i..], rest, from + 1)
    ensures IsRendering(s, amounts, from)
  {
    if s[..i] == "" {
      assert s == s[i..];
      amounts := rest;
    } else {
      var a := PartMatchesOnly(from, s[..i]);
      Prepend(s, i, a, rest, from);
      amounts := [a] + rest;
    }
  }

  lemma {:induction false} TailMatchesOnly(from: int, s: string) returns (amounts: seq<Amount>)
    requires 0 <= from < 5 && Accepts(Tail(from), s)
    ensures IsRendering(s, amounts, from)
    decreases 5 - from
  {
    if from < 4 {
      var i :| 0 <= i <= |s| && Accepts(Opt(Part(UNITS[from])), s[..i]) && Accepts(Tail(from + 1), s[i..]);
      amounts := TailMatchesOnly(from + 1, s[i..]);
      amounts := AmountInFront(from, s, i, amounts);
    } else {
      assert UNITS[4] == 's' && s[..|s|] == s && s[|s|..] == "";
      amounts := AmountInFront(4, s, |s|, []);
    }
  }

  lemma {:induction false} TailMatchesAll(from: int, amounts: seq<Amount>)
    requires 0 <= from < 5 && Descending(amounts, from)
    ensures Accepts(Tail(from), Render(amounts, from))
    decreases 5 - from
  {
    var s := Render(amounts, from);
    if amounts != [] && amounts[0].unit == from {
      var p := Show(amounts[0]);
      PartMatchesAll(amounts[0]);
      if from < 4 {
        TailMatchesAll(from + 1, amounts[1..]);
        assert s[..|p|] == p && s[|p|..] == Render(amounts[1..], from + 1);
      } else {
        var rest := amounts[1..];
        assert rest == [] && Render(rest, 5) == "";
        assert UNITS[4] == 's' && s == p + "" == p;
      }
    } else if from < 4 {
      TailMatchesAll(from + 1, amounts);
      assert s[..0] == "" && s[0..] == s;
    } else {
      assert amounts == [];
    }
  }

  /** The alternative for durations that start with the unit. */
  function StartingWith(unit: int): Regex
    requires 0 <= unit < 5
  {
    if unit == 4 then Part('s') else Cat(Part(UNITS[unit]), Tail(unit + 1))
  }

  lemma PatternByUnit(s: string)
    ensures Accepts(PATTERN, s) <==> exists u | 0 <= u < 5 :: Accepts(StartingWith(u), s)
  {
    var a3 := Alt(StartingWith(3), StartingWith(4));
    var a2 := Alt(StartingWith(2), a3);
    var a1 := Alt(StartingWith(1), a2);
    assert PATTERN == Alt(StartingWith(0), a1);
    assert Accepts(a3, s) <==> Accepts(StartingWith(3), s) || Accepts(StartingWith(4), s);
    assert Accepts(a2, s) <==> Accepts(StartingWith(2), s) || Accepts(a3, s);
    assert Accepts(a1, s) <==> Accepts(StartingWith(1), s) || Accepts(a2, s);
    assert Accepts(PATTERN, s) <==> Accepts(StartingWith(0), s) || Accepts(a1, s);
  }

  lemma StartingWithOnly(u: int, s: string) returns (amounts: seq<Amount>)
    requires 0 <= u < 5 && Accepts(StartingWith(u), s)
    ensures amounts != [] && IsRendering(s, amounts, 0)
  {
    if u < 4 {
      var i :| 0 <= i <= |s| && Accepts(Part(UNITS[u]), s[..i]) && Accepts(Tail(u + 1), s[i..]);
      var rest := TailMatchesOnly(u + 1, s[i..]);
      var a := PartMatchesOnly(u, s[..i]);
      Prepend(s, i, a, rest, 0);
      amounts := [a] + rest;
    } else {
      var a := PartMatchesOnly(4, s);
      assert s[..|s|] == s && s[|s|..] == "";
      Prepend(s, |s|, a, [], 0);
      amounts := [a] + [];
    }
  }

  lemma StartingWithAll(amounts: seq<Amount>)
    requires amounts != [] && Descending(amounts, 0)
    ensures Accepts(StartingWith(amounts[0].unit), Render(amounts, 0))
  {
    var u, p, s, rest := amounts[0].unit, Show(amounts[0]), Render(amounts, 0), amounts[1..];
    PartMatchesAll(amounts[0]);
    if u < 4 {
      TailMatchesAll(u + 1, rest);
      assert s[..|p|] == p && s[|p|..] == Render(rest, u + 1);
    } else {
      assert rest == [] && Render(rest, 5) == "";
      assert UNITS[4] == 's' && s == p + "" == p;
    }
  }

  /** The pattern accepts exactly the non-empty strings of amounts whose units strictly descend. */
  lemma PatternLanguage(s: string)
    ensures Accepts(PATTERN, s) <==> exists amounts: seq<Amount> :: amounts != [] && IsRendering(s, amounts, 0)
  {
    PatternByUnit(s);
    if Accepts(PATTERN, s) {
      var u :| 0 <= u < 5 && Accepts(StartingWith(u), s);
      var amounts := StartingWithOnly(u, s);
    }
    if amounts: seq<Amount> :| amounts != [] && IsRendering(s, amounts, 0) {
      StartingWithAll(amounts);
      assert 0 <= amounts[0].unit < 5;
    }
  }

  // ---- Parsing ----

  function UnitOf(c: char): (u: int)
    ensures 0 <= u <= 5 && (u < 5 <==> c in UNITS) && (u < 5 ==> UNITS[u] == c)
  {
    if c == 'w' then 0 else if c == 'd' then 1 else if c == 'h' then 2 else if c == 'm' then 3
    else if c == 's' then 4 else 5
  }

  /** Takes one amount after the other off the string. */
  function Parse(s: string, from: int): Option<seq<Amount>> {
    if s == "" then Some([])
    else
      var n := DigitRun(s);
      if n == 0 || n == |s| then None
      else
        var a := Amount(s[..n], UnitOf(s[n]));
        if a.unit == 5 || a.unit < from then None
        else
          var rest := Parse(s[n + 1..], a.unit + 1);
          if rest.None? then None else Some([a] + rest.value)
  }

  lemma {:induction false} DigitRunIs(s: string, n: nat)
    requires n < |s| && (forall i | 0 <= i < n :: IsDigit(s[i])) && !IsDigit(s[n])
    ensures DigitRun(s) == n
  {
    if n > 0 {
      DigitRunIs(s[1..], n - 1);
    }
  }

  lemma {:induction false} ParseSound(s: string, from: int)
    requires 0 <= from && Parse(s, from).Some?
    ensures IsRendering(s, Parse(s, from).value, from)
    decreases |s|
  {
    if s != "" {
      var n := DigitRun(s);
      var a := Amount(s[..n], UnitOf(s[n]));
      ParseSound(s[n + 1..], a.unit + 1);
      var rest := Parse(s[n + 1..], a.unit + 1).value;
      assert ([a] + rest)[1..] == rest;
      assert s == s[..n] + [s[n]] + s[n + 1..];
      assert Show(a) + Render(rest, a.unit + 1) == s;
    }
  }

  lemma {:induction false} ParseComplete(s: string, from: int, amounts: seq<Amount>)
    requires 0 <= from && IsRendering(s, amounts, from)
    ensures Parse(s, from) == Some(amounts)
    decreases |s|
  {
    if amounts != [] {
      RenderingStarts(s, amounts, from);
      var n := |amounts[0].digits|;
      ParseComplete(s[n + 1..], amounts[0].unit + 1, amounts[1..]);
      assert amounts == [amounts[0]] + amounts[1..];
    }
  }

  /** The parser inverts rendering: a string has a decomposition exactly if the parser finds it, so no
      string has two. */
  lemma ParseInvertsRender(s: string, from: int, amounts: seq<Amount>)
    requires 0 <= from
    ensures Parse(s, from) == Some(amounts) <==> IsRendering(s, amounts, from)
  {
    if Parse(s, from).Some? {
      ParseSound(s, from);
    }
    if IsRendering(s, amounts, from) {
      ParseComplete(s, from, amounts);
    }
  }

  lemma RenderingStarts(s: string, amounts: seq<Amount>, from: int)
    requires amounts != [] && IsRendering(s, amounts, from)
    ensures var n := |amounts[0].digits|;
            && 0 < n < |s| && DigitRun(s) == n && s[..n] == amounts[0].digits && UnitOf(s[n]) == amounts[0].unit
            && s[n + 1..] == Render(amounts[1..], amounts[0].unit + 1)
  {
    var n := |amounts[0].digits|;
    assert s[..n] == amounts[0].digits && (forall i | 0 <= i < n :: s[i] == s[..n][i]);
    assert s[n] == UNITS[amounts[0].unit];
    assert !IsDigit(UNITS[amounts[0].unit]);
    DigitRunIs(s, n);
  }

  // ---- Meaning ----

  function UnitSeconds(unit: int): int {
    if unit == 0 then 604_800 else if unit == 1 then 86_400 else if unit == 2 then 3_600
    else if unit == 3 then 60 else 1
  }

  function Seconds(amounts: seq<Amount>): int {
    if amounts == [] then 0
    else Value(amounts[0].digits) * UnitSeconds(amounts[0].unit) + Seconds(amounts[1..])
  }

  /** The amount given for the unit at this position in `UNITS`, 0 if there is none. */
  function AmountOf(amounts: seq<Amount>, unit: int): int {
    if amounts == [] then 0
    else Plus(Value(amounts[0].digits), amounts[0].unit, unit) + AmountOf(amounts[1..], unit)
  }

  function Plus(n: int, unit: int, other: int): int {
    if unit == other then n else 0
  }

  /** Weeks of 7 days, days of 24 hours, hours of 60 minutes, minutes of 60 seconds. */
  function TotalSeconds(weeks: int, days: int, hours: int, minutes: int, seconds: int): int {
    (((weeks * 7 + days) * 24 + hours) * 60 + minutes) * 60 + seconds
  }

  function ByUnit(amounts: seq<Amount>): int {
    TotalSeconds(AmountOf(amounts, 0), AmountOf(amounts, 1), AmountOf(amounts, 2), AmountOf(amounts, 3),
                 AmountOf(amounts, 4))
  }

  /** One amount adds to the number of its own unit, and to the total by its weight. */
  lemma AmountAdds(n: int, unit: int, w: int, d: int, h: int, m: int, s: int)
    requires 0 <= unit < 5
    ensures n * UnitSeconds(unit) + TotalSeconds(w, d, h, m, s) ==
            TotalSeconds(Plus(n, unit, 0) + w, Plus(n, unit, 1) + d, Plus(n, unit, 2) + h, Plus(n, unit, 3) + m,
                         Plus(n, unit, 4) + s)
  {
  }

  lemma FirstAmount(amounts: seq<Amount>)
    requires amounts != []
    ensures var n, unit, rest := Value(amounts[0].digits), amounts[0].unit, amounts[1..];
            ByUnit(amounts) ==
            TotalSeconds(Plus(n, unit, 0) + AmountOf(rest, 0), Plus(n, unit, 1) + AmountOf(rest, 1),
                         Plus(n, unit, 2) + AmountOf(rest, 2), Plus(n, unit, 3) + AmountOf(rest, 3),
                         Plus(n, unit, 4) + AmountOf(rest, 4))
  {
  }

  /** The weights are those of weeks, days, hours, minutes and seconds. */
  lemma {:induction false} SecondsByUnit(amounts: seq<Amount>, from: int)
    requires Descending(amounts, from) && 0 <= from
    ensures Seconds(amounts) == ByUnit(amounts)
  {
    if amounts != [] {
      var a, rest := amounts[0], amounts[1..];
      SecondsByUnit(rest, a.unit + 1);
      var n, w, d, h, m, s :=
        Value(a.digits), AmountOf(rest, 0), AmountOf(rest, 1), AmountOf(rest, 2), AmountOf(rest, 3), AmountOf(rest, 4);
      calc {
        Seconds(amounts);
      ==
        n * UnitSeconds(a.unit) + TotalSeconds(w, d, h, m, s);
      == { AmountAdds(n, a.unit, w, d, h, m, s); }
        TotalSeconds(Plus(n, a.unit, 0) + w, Plus(n, a.unit, 1) + d, Plus(n, a.unit, 2) + h, Plus(n, a.unit, 3) + m,
                     Plus(n, a.unit, 4) + s);
      == { FirstAmount(amounts); }
        ByUnit(amounts);
      }
    }
  }

  const MAX_INT64 := 0x7fff_ffff_ffff_ffff
  const TWO_TO_64 := 0x1_0000_0000_0000_0000

  /** `Duration()`, in seconds: the weighted sum of the amounts. What does not fit an int64 count of
      nanoseconds is an error. */
  function ParseDuration(s: string): Result<int, string> {
    var amounts := Parse(s, 0);
    if s == "" || amounts.None? then Err("invalid duration")
    else if Seconds(amounts.value) * NANOS > MAX_INT64 then Err("duration out of range")
    else Ok(Seconds(amounts.value))
  }

  /** A duration is read exactly if it is in the language of the pattern and within range; it then means so many
      weeks, days, hours, minutes and seconds as its only decomposition says. */
  lemma DurationMeaning(s: string, v: int)
    ensures ParseDuration(s) == Ok(v) <==>
            && Accepts(PATTERN, s)
            && (forall amounts | IsRendering(s, amounts, 0) :: ByUnit(amounts) == v)
            && v <= 9_223_372_036
  {
    PatternLanguage(s);
    forall amounts | IsRendering(s, amounts, 0) ensures Seconds(amounts) == ByUnit(amounts) {
      SecondsByUnit(amounts, 0);
    }
    forall amounts ensures Parse(s, 0) == Some(amounts) <==> IsRendering(s, amounts, 0) {
      ParseInvertsRender(s, 0, amounts);
    }
    if Parse(s, 0).Some? {
      assert IsRendering(s, Parse(s, 0).value, 0);
    }
  }

  /** A duration in a single unit: weeks are 168 hours, days 24. */
  lemma SingleUnit(digits: string, unit: int)
    requires digits != "" && AllDigits(digits) && 0 <= unit < 5
    requires Value(digits) * [168 * 3600, 24 * 3600, 3600, 60, 1][unit] <= 9_223_372_036
    ensures ParseDuration(digits + ["wdhms"[unit]]) == Ok(Value(digits) * [168 * 3600, 24 * 3600, 3600, 60, 1][unit])
  {
    var a := Amount(digits, unit);
    var s := Show(a);
    assert [a][1..] == [] && Render([a], 0) == s + "" == s;
    assert s == digits + ["wdhms"[unit]];
    assert Seconds([a]) == Value(digits) * UnitSeconds(unit) + Seconds([a][1..]);
    ParseInvertsRender(s, 0, [a]);
  }

  // ---- Int64 arithmetic ----

  function Wrap(x: int): int {
    (x + MAX_INT64 + 1) % TWO_TO_64 - MAX_INT64 - 1
  }

  /** The sum in nanoseconds, kept in an int64 after every multiplication and addition. */
  function Accumulate(amounts: seq<Amount>, acc: int): int {
    if amounts == [] then acc
    else Accumulate(amounts[1..], Wrap(acc + Wrap(Value(amounts[0].digits) * UnitSeconds(amounts[0].unit) * NANOS)))
  }

  lemma WrapAdds(a: int, b: int)
    ensures Wrap(a + Wrap(b)) == Wrap(a + b) && Wrap(Wrap(a)) == Wrap(a)
  {
  }

  lemma {:induction false} AccumulateIsWrapped(amounts: seq<Amount>, acc: int)
    requires Wrap(acc) == acc
    ensures Accumulate(amounts, acc) == Wrap(acc + Seconds(amounts) * NANOS)
  {
    if amounts != [] {
      var x := Value(amounts[0].digits) * UnitSeconds(amounts[0].unit);
      WrapAdds(acc, x * NANOS);
      WrapAdds(acc + x * NANOS, 0);
      AccumulateIsWrapped(amounts[1..], Wrap(acc + x * NANOS));
      WrapAdds(Seconds(amounts[1..]) * NANOS, acc + x * NANOS);
    }
  }

  predicate HasNonzero(s: string) {
    exists i | 0 <= i < |s| :: '1' <= s[i] <= '9'
  }

  lemma NonzeroInEither(a: string, b: string)
    ensures HasNonzero(a + b) <==> HasNonzero(a) || HasNonzero(b)
  {
    var s := a + b;
    assert forall i | 0 <= i < |a| :: s[i] == a[i];
    assert forall i | 0 <= i < |b| :: s[|a| + i] == b[i];
    if HasNonzero(s) {
      var i :| 0 <= i < |s| && '1' <= s[i] <= '9';
      assert i >= |a| ==> s[i] == b[i - |a|];
    }
  }

  lemma {:induction false} ValuePositive(s: string)
    requires AllDigits(s)
    ensures 0 <= Value(s) && (0 < Value(s) <==> HasNonzero(s))
  {
    if s != "" {
      var before, last := s[..|s| - 1], [s[|s| - 1]];
      ValuePositive(before);
      assert s == before + last;
      NonzeroInEither(before, last);
      assert HasNonzero(last) <==> '1' <= last[0] <= '9';
    }
  }

  /** A duration is positive exactly if some digit of it is not 0. */
  lemma {:induction false} SecondsPositive(amounts: seq<Amount>, from: int)
    requires Descending(amounts, from)
    ensures 0 <= Seconds(amounts) && (0 < Seconds(amounts) <==> HasNonzero(Render(amounts, from)))
  {
    if amounts != [] {
      var a, rest := amounts[0], amounts[1..];
      ValuePositive(a.digits);
      SecondsPositive(rest, a.unit + 1);
      NonzeroInEither(a.digits, [UNITS[a.unit]]);
      NonzeroInEither(Show(a), Render(rest, a.unit + 1));
      assert !HasNonzero([UNITS[a.unit]]);
    }
  }

  /** Arithmetic in int64 nanoseconds gives the exact sum exactly up to 9223372036 seconds. */
  lemma Int64Exactly(amounts: seq<Amount>)
    requires Descending(amounts, 0)
    ensures Accumulate(amounts, 0) == Seconds(amounts) * NANOS <==> Seconds(amounts) <= 9_223_372_036
  {
    SecondsPositive(amounts, 0);
    AccumulateIsWrapped(amounts, 0);
  }

  // ---- Printing ----

  function PrintNumber(n: nat): (s: string)
    ensures s != "" && AllDigits(s)
  {
    var last := [('0' as int + n % 10) as char];
    if n < 10 then last else PrintNumber(n / 10) + last
  }

  lemma {:induction false} NumberRoundTrip(n: nat)
    ensures Value(PrintNumber(n)) == n
  {
    var s := PrintNumber(n);
    if n < 10 {
      assert s[..|s| - 1] == "" && Value("") == 0;
    } else {
      NumberRoundTrip(n / 10);
      assert s[..|s| - 1] == PrintNumber(n / 10);
    }
  }

  /** Each unit at most once, the largest possible first, none with a zero amount. */
  function Canonical(v: nat, unit: int): (amounts: seq<Amount>)
    requires 0 <= unit < 5
    ensures Descending(amounts, unit)
    decreases 5 - unit
  {
    var n, rest := v / UnitSeconds(unit), if unit == 4 then [] else Canonical(v % UnitSeconds(unit), unit + 1);
    if n == 0 then (if rest != [] then assert rest[0].unit >= unit; rest else rest)
    else assert ([Amount(PrintNumber(n), unit)] + rest)[1..] == rest; [Amount(PrintNumber(n), unit)] + rest
  }

  function PrintDuration(v: nat): string {
    if v == 0 then "0s" else Render(Canonical(v, 0), 0)
  }

  lemma {:induction false} CanonicalMeans(v: nat, unit: int)
    requires 0 <= unit < 5
    ensures Seconds(Canonical(v, unit)) == v
    decreases 5 - unit
  {
    var n := v / UnitSeconds(unit);
    NumberRoundTrip(n);
    assert v == n * UnitSeconds(unit) + v % UnitSeconds(unit);
    var rest := if unit == 4 then [] else Canonical(v % UnitSeconds(unit), unit + 1);
    if unit < 4 {
      CanonicalMeans(v % UnitSeconds(unit), unit + 1);
    }
    if n > 0 {
      assert Canonical(v, unit)[1..] == rest;
    }
  }

  lemma ZeroSeconds()
    ensures IsRendering("0s", [Amount("0", 4)], 0) && Seconds([Amount("0", 4)]) == 0
  {
  }

  /** Every whole number of seconds within range is read back from its printed form, which the pattern
      accepts. */
  lemma DurationRoundTrip(v: nat)
    requires v * NANOS <= MAX_INT64
    ensures ParseDuration(PrintDuration(v)) == Ok(v) && Accepts(PATTERN, PrintDuration(v))
  {
    var amounts := if v == 0 then [Amount("0", 4)] else Canonical(v, 0);
    CanonicalMeans(v, 0);
    ZeroSeconds();
    assert IsRendering(PrintDuration(v), amounts, 0) && amounts != [];
    ParseInvertsRender(PrintDuration(v), 0, amounts);
    PatternLanguage(PrintDuration(v));
  }
}
