/**
 Durations and sizes as people write them (src/local/parse.rs).

 Both parsers have the same shape and differ in their unit names, so they are
 one parser over a table of scales.  `Spelling` says what a text means without
 scanning it; the parser is proved to compute exactly that.
 */
module Units {
  import opened Whitespace

  const U64_LIMIT: nat := 0x1_0000_0000_0000_0000

  /** The multiplier of a lower-case unit name; 0 for anything else. */
  type Scale = string -> nat

  datatype Parsed =
    | Value(value: nat)
    | Empty
    | NoAmount
    | AmountTooLarge
    | Zero
    | MissingUnit
    | UnknownUnit(unit: string)
    | TooLarge

  // ----- decimal numbers -----

  predicate IsDigit(c: char) { '0' <= c <= '9' }

  predicate AllDigits(s: string) { forall i | 0 <= i < |s| :: IsDigit(s[i]) }

  function Decimal(n: nat): (s: string)
    ensures s != [] && AllDigits(s)
  {
    var last := '0' + (n % 10) as char;
    if n < 10 then [last] else Decimal(n / 10) + [last]
  }

  function Amount(digits: string): nat
    requires AllDigits(digits)
  {
    if digits == [] then 0
    else Amount(digits[..|digits| - 1]) * 10 + (digits[|digits| - 1] - '0') as nat
  }

  lemma {:induction false} AmountOfDecimal(n: nat)
    ensures Amount(Decimal(n)) == n
  {
    if n < 10 {
      assert Decimal(n)[..0] == [];
    } else {
      AmountOfDecimal(n / 10);
      assert Decimal(n)[..|Decimal(n)| - 1] == Decimal(n / 10);
    }
  }

  // ----- parsing -----

  /** The index of the first character that is not a digit. */
  function DigitRun(s: string): (n: nat)
    ensures n <= |s| && AllDigits(s[..n])
    ensures n == |s| || !IsDigit(s[n])
  {
    if s == [] || !IsDigit(s[0]) then 0 else
    var n := DigitRun(s[1..]);
    assert s[..n + 1] == [s[0]] + s[1..][..n];
    n + 1
  }

  function LowerChar(c: char): char {
    if 'A' <= c <= 'Z' then c + 32 as char else c
  }

  function Lower(s: string): (r: string)
    ensures |r| == |s|
  {
    seq(|s|, i requires 0 <= i < |s| => LowerChar(s[i]))
  }

  /** Upper-case letters become the lower-case ones; nothing else changes. */
  lemma LowerMeans()
    ensures Lower("ABCDEFGHIJKLMNOPQRSTUVWXYZ") == "abcdefghijklmnopqrstuvwxyz"
    ensures forall c: char :: LowerChar(c) == c || 'A' <= c <= 'Z'
    ensures forall c: char :: !('A' <= LowerChar(c) <= 'Z')
  {
  }

  function Parse(scale: Scale, raw: string): Parsed {
    var trimmed := Trim(raw);
    if trimmed == [] then Empty else
    var split := DigitRun(trimmed);
    if split == 0 then NoAmount else
    var amount := Amount(trimmed[..split]);
    if amount >= U64_LIMIT then AmountTooLarge
    else if amount == 0 then Zero else
    var unit := Lower(trimmed[split..]);
    if unit == [] then MissingUnit
    else if scale(unit) == 0 then UnknownUnit(unit)
    else if amount * scale(unit) >= U64_LIMIT then TooLarge
    else Value(amount * scale(unit))
  }

  function DurationScale(unit: string): nat {
    if unit in ["s", "sec", "secs", "second", "seconds"] then 1
    else if unit in ["m", "min", "mins", "minute", "minutes"] then 60
    else if unit in ["h", "hr", "hrs", "hour", "hours"] then 3600
    else if unit in ["d", "day", "days"] then 86400
    else 0
  }

  function SizeScale(unit: string): nat {
    if unit in ["b", "bytes"] then 1
    else if unit in ["kb", "kib"] then 1024
    else if unit in ["mb", "mib"] then 1024 * 1024
    else if unit in ["gb", "gib"] then 1024 * 1024 * 1024
    else 0
  }

  function ParseDuration(raw: string): Parsed { Parse(DurationScale, raw) }

  function ParseSize(raw: string): Parsed { Parse(SizeScale, raw) }

  // ----- printing -----

  function PrintDuration(seconds: nat): string {
    if seconds % 86400 == 0 then Decimal(seconds / 86400) + "d"
    else if seconds % 3600 == 0 then Decimal(seconds / 3600) + "h"
    else if seconds % 60 == 0 then Decimal(seconds / 60) + "min"
    else Decimal(seconds) + "s"
  }

  function PrintSize(bytes: nat): string {
    if bytes % (1024 * 1024 * 1024) == 0 then Decimal(bytes / (1024 * 1024 * 1024)) + "gb"
    else if bytes % (1024 * 1024) == 0 then Decimal(bytes / (1024 * 1024)) + "mb"
    else if bytes % 1024 == 0 then Decimal(bytes / 1024) + "kb"
    else Decimal(bytes) + "b"
  }

  // ----- what a text means -----

  /** White space, digits, a unit in any case, white space. */
  ghost predicate Spelling(
    scale: Scale, raw: string, before: string, digits: string, unit: string, after: string, n: nat)
  {
    && raw == before + digits + unit + after
    && AllSpace(before) && AllSpace(after) && AllDigits(digits)
    && 0 < n < U64_LIMIT
    && n == Amount(digits) * scale(Lower(unit))
  }

  ghost predicate Denotes(scale: Scale, raw: string, n: nat) {
    exists before, digits, unit, after :: Spelling(scale, raw, before, digits, unit, after, n)
  }

  /** Unit names are words of lower-case letters. */
  ghost predicate Words(scale: Scale) {
    forall u | scale(u) > 0 :: u != [] && 'a' <= u[0] <= 'z' && 'a' <= u[|u| - 1] <= 'z'
  }

  lemma TrimKeeps(before: string, core: string, after: string)
    requires AllSpace(before) && AllSpace(after) && core != [] && !IsSpace(core[0]) && !IsSpace(core[|core| - 1])
    ensures Trim(before + core + after) == core
  {
    TrimIgnores(before, core, after);
  }

  lemma {:induction false} DigitRunStops(digits: string, rest: string)
    requires AllDigits(digits) && (rest == [] || !IsDigit(rest[0]))
    ensures DigitRun(digits + rest) == |digits|
  {
    if digits == [] {
      assert digits + rest == rest;
    } else {
      assert (digits + rest)[1..] == digits[1..] + rest;
      DigitRunStops(digits[1..], rest);
    }
  }

  /** A product in range has its left factor in range. */
  lemma FactorInRange(amount: nat, scale: nat)
    requires 0 < amount * scale < U64_LIMIT
    ensures 0 < amount < U64_LIMIT && scale > 0
  {
    if amount > 0 && scale > 0 {
      assert amount * scale == amount + amount * (scale - 1);
    }
  }

  lemma SpellingParses(
    scale: Scale, raw: string, before: string, digits: string, unit: string, after: string, n: nat)
    requires Words(scale) && Spelling(scale, raw, before, digits, unit, after, n)
    ensures Parse(scale, raw) == Value(n)
  {
    FactorInRange(Amount(digits), scale(Lower(unit)));
    var core := digits + unit;
    assert Lower(unit) != [] && 'a' <= LowerChar(unit[0]) <= 'z' && 'a' <= LowerChar(unit[|unit| - 1]) <= 'z';
    assert digits != [];
    assert IsDigit(core[0]) && core[|core| - 1] == unit[|unit| - 1];
    assert raw == before + core + after;
    TrimKeeps(before, core, after);
    DigitRunStops(digits, unit);
    assert core[..|digits|] == digits && core[|digits|..] == unit;
  }

  lemma ParsedIsSpelling(scale: Scale, raw: string)
    requires Parse(scale, raw).Value?
    ensures Denotes(scale, raw, Parse(scale, raw).value)
  {
    var before, after := TrimSplits(raw);
    var t := Trim(raw);
    var split := DigitRun(t);
    var digits, unit := t[..split], t[split..];
    assert raw == before + digits + unit + after;
    Positive(Amount(digits), scale(Lower(unit)));
    assert Spelling(scale, raw, before, digits, unit, after, Parse(scale, raw).value);
  }

  /** The parser accepts exactly the spellings and returns what they denote. */
  lemma ParseMeaning(scale: Scale, raw: string, n: nat)
    requires Words(scale)
    ensures Parse(scale, raw) == Value(n) <==> Denotes(scale, raw, n)
  {
    if Denotes(scale, raw, n) {
      var before, digits, unit, after :| Spelling(scale, raw, before, digits, unit, after, n);
      SpellingParses(scale, raw, before, digits, unit, after, n);
    }
    if Parse(scale, raw) == Value(n) {
      ParsedIsSpelling(scale, raw);
    }
  }

  /** Which refusal: an amount that does not fit 64 bits by itself is told from a
      product that does not, and zero from a missing or unknown unit. */
  lemma RefusalMeans(scale: Scale, raw: string, digits: string, unit: string)
    requires digits != [] && AllDigits(digits) && (unit == [] || !IsDigit(unit[0])) && Trim(raw) == digits + unit
    ensures var r, n := Parse(scale, raw), Amount(digits);
      && (r == AmountTooLarge <==> n >= U64_LIMIT)
      && (r == Zero <==> n == 0)
      && (r == MissingUnit <==> 0 < n < U64_LIMIT && unit == [])
      && (r == UnknownUnit(Lower(unit)) <==> 0 < n < U64_LIMIT && unit != [] && scale(Lower(unit)) == 0)
      && (r == TooLarge <==>
            0 < n < U64_LIMIT && unit != [] && scale(Lower(unit)) > 0 && n * scale(Lower(unit)) >= U64_LIMIT)
  {
    DigitRunStops(digits, unit);
    assert Trim(raw)[..|digits|] == digits && Trim(raw)[|digits|..] == unit;
  }

  lemma Positive(a: nat, b: nat)
    requires a > 0 && b > 0
    ensures a * b > 0
  {
  }

  lemma DurationWords()
    ensures Words(DurationScale)
  {
  }

  lemma SizeWords()
    ensures Words(SizeScale)
  {
  }

  lemma NothingAround(s: string, unit: string)
    ensures s + unit == "" + s + unit + ""
  {
  }

  lemma PlainSpelling(scale: Scale, amount: nat, unit: string)
    requires Words(scale) && Lower(unit) == unit && 0 < amount * scale(unit) < U64_LIMIT
    ensures Parse(scale, Decimal(amount) + unit) == Value(amount * scale(unit))
  {
    AmountOfDecimal(amount);
    PlainDigits(scale, Decimal(amount), unit);
  }

  lemma PlainDigits(scale: Scale, digits: string, unit: string)
    requires Words(scale) && AllDigits(digits) && Lower(unit) == unit && 0 < Amount(digits) * scale(unit) < U64_LIMIT
    ensures Parse(scale, digits + unit) == Value(Amount(digits) * scale(unit))
  {
    NothingAround(digits, unit);
    SpellingParses(scale, digits + unit, "", digits, unit, "", Amount(digits) * scale(unit));
  }

  lemma ZeroIsRefused(scale: Scale, unit: string)
    requires unit != [] && !IsDigit(unit[0]) && !IsSpace(unit[|unit| - 1])
    ensures Parse(scale, Decimal(0) + unit) == Zero
  {
    var raw := Decimal(0) + unit;
    assert Decimal(0) == "0";
    assert raw == "" + raw + "";
    TrimKeeps("", raw, "");
    DigitRunStops(Decimal(0), unit);
    assert raw[..1] == Decimal(0);
    AmountOfDecimal(0);
  }

  /** The names of a second and a minute. */
  lemma ShortUnits(unit: string)
    ensures DurationScale(unit) == 1 <==> unit in {"s", "sec", "secs", "second", "seconds"}
    ensures DurationScale(unit) == 60 <==> unit in {"m", "min", "mins", "minute", "minutes"}
  {
    LongUnits(unit);
  }

  /** The names of an hour and a day; nothing else is a unit. */
  lemma LongUnits(unit: string)
    ensures DurationScale(unit) == 3600 <==> unit in {"h", "hr", "hrs", "hour", "hours"}
    ensures DurationScale(unit) == 86400 <==> unit in {"d", "day", "days"}
    ensures DurationScale(unit) in {0, 1, 60, 3600, 86400}
  {
  }

  lemma SizeUnits(unit: string)
    ensures SizeScale(unit) == 1 <==> unit in {"b", "bytes"}
    ensures SizeScale(unit) == 1024 <==> unit in {"kb", "kib"}
    ensures SizeScale(unit) == 1024 * 1024 <==> unit in {"mb", "mib"}
    ensures SizeScale(unit) == 1024 * 1024 * 1024 <==> unit in {"gb", "gib"}
    ensures SizeScale(unit) in {0, 1, 1024, 1024 * 1024, 1024 * 1024 * 1024}
  {
  }

  lemma DurationNames()
    ensures DurationScale("d") == 86400 && DurationScale("h") == 3600
    ensures DurationScale("min") == 60 && DurationScale("s") == 1
  {
  }

  lemma SizeNames()
    ensures SizeScale("gb") == 1024 * 1024 * 1024 && SizeScale("mb") == 1024 * 1024
    ensures SizeScale("kb") == 1024 && SizeScale("b") == 1
  {
  }

  /** `amount` of unit `name`, for the coarsest unit that measures `n` exactly. */
  ghost predicate Coarsest(scale: Scale, units: set<nat>, n: nat, amount: nat, name: string) {
    && Lower(name) == name && scale(name) in units
    && amount * scale(name) == n
    && forall s | s in units && s > 0 && n % s == 0 :: s <= scale(name)
  }

  lemma CoarsestIs(scale: Scale, units: set<nat>, n: nat, s: nat, name: string)
    requires Lower(name) == name && scale(name) == s && s in units && s > 0 && n % s == 0
    requires forall t | t in units && t > s :: n % t != 0
    ensures Coarsest(scale, units, n, n / s, name)
  {
  }

  lemma DurationPrinted(n: nat) returns (amount: nat, name: string)
    ensures PrintDuration(n) == Decimal(amount) + name
    ensures Coarsest(DurationScale, {1, 60, 3600, 86400}, n, amount, name)
    ensures n == 0 ==> amount == 0 && name == "d"
  {
    DurationNames();
    if n % 86400 == 0 {
      amount, name := n / 86400, "d";
    } else if n % 3600 == 0 {
      amount, name := n / 3600, "h";
    } else if n % 60 == 0 {
      amount, name := n / 60, "min";
    } else {
      amount, name := n / 1, "s";
    }
    CoarsestIs(DurationScale, {1, 60, 3600, 86400}, n, DurationScale(name), name);
  }

  lemma SizePrinted(n: nat) returns (amount: nat, name: string)
    ensures PrintSize(n) == Decimal(amount) + name
    ensures Coarsest(SizeScale, {1, 1024, 1024 * 1024, 1024 * 1024 * 1024}, n, amount, name)
    ensures n == 0 ==> amount == 0 && name == "gb"
  {
    SizeNames();
    if n % (1024 * 1024 * 1024) == 0 {
      amount, name := n / (1024 * 1024 * 1024), "gb";
    } else if n % (1024 * 1024) == 0 {
      amount, name := n / (1024 * 1024), "mb";
    } else if n % 1024 == 0 {
      amount, name := n / 1024, "kb";
    } else {
      amount, name := n / 1, "b";
    }
    CoarsestIs(SizeScale, {1, 1024, 1024 * 1024, 1024 * 1024 * 1024}, n, SizeScale(name), name);
  }

  /** Printing then parsing is the identity exactly on the positive values. */
  lemma DurationRoundTrip(seconds: nat)
    requires seconds < U64_LIMIT
    ensures ParseDuration(PrintDuration(seconds)) == if seconds > 0 then Value(seconds) else Zero
  {
    DurationWords();
    var amount, name := DurationPrinted(seconds);
    if seconds == 0 {
      ZeroIsRefused(DurationScale, "d");
    } else {
      PlainSpelling(DurationScale, amount, name);
    }
  }

  lemma SizeRoundTrip(bytes: nat)
    requires bytes < U64_LIMIT
    ensures ParseSize(PrintSize(bytes)) == if bytes > 0 then Value(bytes) else Zero
  {
    SizeWords();
    var amount, name := SizePrinted(bytes);
    if bytes == 0 {
      ZeroIsRefused(SizeScale, "gb");
    } else {
      PlainSpelling(SizeScale, amount, name);
    }
  }

  lemma CoarserIsFewer(k: nat, s: nat, amount: nat, coarse: nat)
    requires k * s == amount * coarse && 0 < s <= coarse
    ensures amount <= k
  {
    assert k * coarse == k * s + k * (coarse - s);
    assert k * coarse == amount * coarse + (k - amount) * coarse;
  }

  /** The printed form of `n` writes it with an amount of at most `k`. */
  ghost predicate PrintedWithin(scale: Scale, printed: string, n: nat, k: nat) {
    exists amount: nat, name :: printed == Decimal(amount) + name && amount * scale(name) == n && amount <= k
  }

  lemma CoarsestIsLeast(scale: Scale, units: set<nat>, amount: nat, name: string, k: nat, s: nat)
    requires s in units && s > 0 && k * s % s == 0 && Coarsest(scale, units, k * s, amount, name)
    ensures PrintedWithin(scale, Decimal(amount) + name, k * s, k)
  {
    CoarserIsFewer(k, s, amount, scale(name));
  }

  lemma Multiples(k: nat)
    ensures k * 60 % 60 == 0 && k * 3600 % 3600 == 0 && k * 86400 % 86400 == 0
    ensures k * 1024 % 1024 == 0 && k * (1024 * 1024) % (1024 * 1024) == 0
    ensures k * (1024 * 1024 * 1024) % (1024 * 1024 * 1024) == 0
  {
  }

  lemma DurationLeast(k: nat, s: nat)
    requires s in {1, 60, 3600, 86400}
    ensures PrintedWithin(DurationScale, PrintDuration(k * s), k * s, k)
  {
    var amount, name := DurationPrinted(k * s);
    Multiples(k);
    CoarsestIsLeast(DurationScale, {1, 60, 3600, 86400}, amount, name, k, s);
  }

  lemma SizeLeast(k: nat, s: nat)
    requires s in {1, 1024, 1024 * 1024, 1024 * 1024 * 1024}
    ensures PrintedWithin(SizeScale, PrintSize(k * s), k * s, k)
  {
    var amount, name := SizePrinted(k * s);
    Multiples(k);
    CoarsestIsLeast(SizeScale, {1, 1024, 1024 * 1024, 1024 * 1024 * 1024}, amount, name, k, s);
  }

  lemma Scales(unit: string)
    ensures DurationScale(unit) in {0, 1, 60, 3600, 86400}
    ensures SizeScale(unit) in {0, 1, 1024, 1024 * 1024, 1024 * 1024 * 1024}
  {
  }

  /** Rewriting an accepted text in printed form keeps its value, and the
      printed amount is the least with which that value can be written. */
  lemma DurationReprint(raw: string, before: string, digits: string, unit: string, after: string, n: nat)
    requires Spelling(DurationScale, raw, before, digits, unit, after, n)
    ensures ParseDuration(raw) == ParseDuration(PrintDuration(n)) == Value(n)
    ensures PrintedWithin(DurationScale, PrintDuration(n), n, Amount(digits))
  {
    DurationWords();
    SpellingParses(DurationScale, raw, before, digits, unit, after, n);
    DurationRoundTrip(n);
    FactorInRange(Amount(digits), DurationScale(Lower(unit)));
    Scales(Lower(unit));
    DurationLeast(Amount(digits), DurationScale(Lower(unit)));
  }

  lemma SizeReprint(raw: string, before: string, digits: string, unit: string, after: string, n: nat)
    requires Spelling(SizeScale, raw, before, digits, unit, after, n)
    ensures ParseSize(raw) == ParseSize(PrintSize(n)) == Value(n)
    ensures PrintedWithin(SizeScale, PrintSize(n), n, Amount(digits))
  {
    SizeWords();
    SpellingParses(SizeScale, raw, before, digits, unit, after, n);
    SizeRoundTrip(n);
    FactorInRange(Amount(digits), SizeScale(Lower(unit)));
    Scales(Lower(unit));
    SizeLeast(Amount(digits), SizeScale(Lower(unit)));
  }
}
