/** Relative times: `now`, `now-3h`, `now+3d-1.5h`. */
module RelativeTime {
  import opened Values
  import opened Text
  import opened Numerals
  import opened Scanning

  /** One signed offset, its digits and unit as written. */
  datatype Offset = Offset(plus: bool, whole: string, fraction: Option<string>, unit: string)

  predicate IsLetter(c: char) {
    'a' <= c <= 'z' || 'A' <= c <= 'Z'
  }

  predicate WellFormed(o: Offset) {
    && IsDigits(o.whole) && (o.fraction.Some? ==> IsDigits(o.fraction.value))
    && o.unit != "" && forall c :: c in o.unit ==> IsLetter(c)
  }

  /** The units the program knows, each with its length in seconds. */
  const UNITS: map<string, real> := map[
    "s" := 1.0, "sec" := 1.0, "secs" := 1.0, "second" := 1.0, "seconds" := 1.0,
    "m" := 60.0, "min" := 60.0, "mins" := 60.0, "minute" := 60.0, "minutes" := 60.0,
    "h" := 3600.0, "hr" := 3600.0, "hrs" := 3600.0, "hour" := 3600.0, "hours" := 3600.0,
    "d" := 86400.0, "day" := 86400.0, "days" := 86400.0,
    "w" := 604800.0, "week" := 604800.0, "weeks" := 604800.0]

  function UnitSeconds(unit: string): Option<real> {
    if Lower(unit) in UNITS then Some(UNITS[Lower(unit)]) else None
  }

  predicate Known(o: Offset) {
    WellFormed(o) && UnitSeconds(o.unit).Some?
  }

  /** The decimal point moved so many places to the left. */
  function Tenths(x: real, places: nat): real
    decreases places
  {
    if places == 0 then x else Tenths(x / 10.0, places - 1)
  }

  function Amount(o: Offset): real
    requires WellFormed(o)
  {
    NumberOf(o.whole) as real
      + (if o.fraction.Some? then Tenths(NumberOf(o.fraction.value) as real, |o.fraction.value|) else 0.0)
  }

  function Shift(o: Offset): real
    requires Known(o)
  {
    var delta := Amount(o) * UnitSeconds(o.unit).value;
    if o.plus then delta else -delta
  }

  // ---- How offsets are written ---------------------------------------------------

  function Point(fraction: Option<string>): string {
    if fraction.Some? then "." + fraction.value else ""
  }

  function Print(o: Offset): string {
    [if o.plus then '+' else '-'] + PrintUnsigned(o)
  }

  function PrintAll(offsets: seq<Offset>): string {
    Concat(offsets, Print)
  }

  predicate AllKnown(offsets: seq<Offset>) {
    forall o :: o in offsets ==> Known(o)
  }

  /** The signed sum. */
  function Total(offsets: seq<Offset>): real
    requires AllKnown(offsets)
  {
    if offsets == [] then 0.0 else Shift(offsets[0]) + Total(offsets[1..])
  }

  // ---- How they are read -----------------------------------------------------------

  /** The longest run of letters at the start of `tail`. */
  function UnitAt(tail: string): (u: string)
    ensures u <= tail && forall c :: c in u ==> IsLetter(c)
  {
    tail[..Lead(tail, IsLetter)]
  }

  /** The longest run of digits at the start of `s`. */
  function DigitsAt(s: string): (w: string)
    ensures w <= s && forall c :: c in w ==> IsDigit(c)
  {
    s[..Lead(s, IsDigit)]
  }

  /** The optional fraction at the start of `s`. */
  function FractionAt(s: string): (f: Option<string>)
    ensures Point(f) <= s && (f.Some? ==> IsDigits(f.value))
  {
    if s == "" || s[0] != '.' || DigitsAt(s[1..]) == "" then None else Some(DigitsAt(s[1..]))
  }

  /** The rest of `s` after a piece at its start. */
  function After(s: string, piece: string): (r: string)
    requires piece <= s
    ensures s == piece + r
  {
    s[|piece|..]
  }

  /** The pattern's match at the start of `s`: greedy, and giving a character back never helps. */
  function Match(s: string): Option<Offset> {
    if s == "" || (s[0] != '+' && s[0] != '-') then None else Unsigned(s[0] == '+', s[1..])
  }

  /** What follows the sign. */
  function Unsigned(plus: bool, s: string): Option<Offset> {
    var whole := DigitsAt(s);
    var rest := After(s, whole);
    var fraction := FractionAt(rest);
    var unit := UnitAt(After(rest, Point(fraction)));
    if whole == "" || unit == "" then None else Some(Offset(plus, whole, fraction, unit))
  }

  function PrintUnsigned(o: Offset): string {
    o.whole + (Point(o.fraction) + o.unit)
  }

  lemma PrefixThen(s: string, piece: string, more: string)
    requires piece <= s && more <= After(s, piece)
    ensures piece + more <= s
  {
    assert s == piece + After(s, piece);
  }

  /** A match is well formed and is the text it was found in. */
  lemma MatchSound(s: string)
    requires Match(s).Some?
    ensures var o := Match(s).value; WellFormed(o) && Print(o) != "" && Print(o) <= s
  {
    var o, sign := Match(s).value, [s[0]];
    UnsignedSound(s[0] == '+', s[1..]);
    assert Print(o) == sign + PrintUnsigned(o) && After(s, sign) == s[1..];
    PrefixThen(s, sign, PrintUnsigned(o));
  }

  lemma UnsignedSound(plus: bool, s: string)
    requires Unsigned(plus, s).Some?
    ensures var o := Unsigned(plus, s).value; WellFormed(o) && o.plus == plus && PrintUnsigned(o) <= s
  {
    var o := Unsigned(plus, s).value;
    PrefixThen(After(s, o.whole), Point(o.fraction), o.unit);
    PrefixThen(s, o.whole, Point(o.fraction) + o.unit);
  }

  lemma DigitsAgain(whole: string, after: string)
    requires (forall c :: c in whole ==> IsDigit(c)) && (after == "" || !IsDigit(after[0]))
    ensures DigitsAt(whole + after) == whole && After(whole + after, whole) == after
  {
    LeadIs(whole, after, IsDigit);
  }

  lemma FractionAgain(f: Option<string>, after: string)
    requires f.Some? ==> IsDigits(f.value)
    requires after != "" && IsLetter(after[0])
    ensures FractionAt(Point(f) + after) == f && After(Point(f) + after, Point(f)) == after
  {
    if f.Some? {
      assert (Point(f) + after)[1..] == f.value + after;
      DigitsAgain(f.value, after);
    }
  }

  lemma UnitAgain(unit: string, after: string)
    requires (forall c :: c in unit ==> IsLetter(c)) && (after == "" || !IsLetter(after[0]))
    ensures UnitAt(unit + after) == unit
  {
    LeadIs(unit, after, IsLetter);
  }

  lemma Regroup(a: string, b: string, c: string, d: string)
    ensures (a + (b + c)) + d == a + (b + (c + d))
  {
  }

  /** An offset is read back whole when nothing, or another offset, follows it. */
  lemma MatchComplete(o: Offset, after: string)
    requires WellFormed(o) && (after == "" || after[0] == '+' || after[0] == '-')
    ensures Match(Print(o) + after) == Some(o)
  {
    var s := Print(o) + after;
    assert s[1..] == PrintUnsigned(o) + after && s[0] == (if o.plus then '+' else '-');
    UnsignedComplete(o, after);
  }

  lemma UnsignedComplete(o: Offset, after: string)
    requires WellFormed(o) && (after == "" || after[0] == '+' || after[0] == '-')
    ensures Unsigned(o.plus, PrintUnsigned(o) + after) == Some(o)
  {
    var tail := o.unit + after;
    var rest := Point(o.fraction) + tail;
    Regroup(o.whole, Point(o.fraction), o.unit, after);
    assert tail[0] == o.unit[0] && IsLetter(o.unit[0]);
    DigitsAgain(o.whole, rest);
    FractionAgain(o.fraction, tail);
    UnitAgain(o.unit, after);
  }

  lemma MatchFinds()
    ensures Finds(Match, Print, WellFormed)
  {
    forall s | Match(s).Some? ensures Print(Match(s).value) != "" && Print(Match(s).value) <= s { MatchSound(s); }
  }

  lemma MatchFindsAgain()
    ensures FindsAgain(Match, Print, WellFormed)
  {
    forall o, pieces: seq<Offset> | WellFormed(o) && (forall p :: p in pieces ==> WellFormed(p))
      ensures Match(Print(o) + Concat(pieces, Print)) == Some(o)
    {
      assert pieces != [] ==> Concat(pieces, Print)[0] == Print(pieces[0])[0];
      MatchComplete(o, Concat(pieces, Print));
    }
  }

  // ---- The expression ----------------------------------------------------------------

  predicate Writes(expr: string, offsets: seq<Offset>) {
    AllKnown(offsets) && Strip(expr) == "now" + PrintAll(offsets)
  }

  /** What an expression writes is what its matches tile. */
  lemma WritesIsTile(expr: string, rest: string)
    requires Strip(expr) == "now" + rest && Finds(Match, Print, WellFormed)
    ensures forall offsets :: Writes(expr, offsets) <==>
      Tile(rest, Match, Print, WellFormed) == Some(offsets) && AllKnown(offsets)
  {
    MatchFindsAgain();
    forall offsets
      ensures Writes(expr, offsets) <==> Tile(rest, Match, Print, WellFormed) == Some(offsets) && AllKnown(offsets)
    {
      assert ("now" + rest)[3..] == rest && ("now" + PrintAll(offsets))[3..] == PrintAll(offsets);
      if Writes(expr, offsets) { TileComplete(offsets, Match, Print, WellFormed); }
      if Tile(rest, Match, Print, WellFormed) == Some(offsets) { TileSound(rest, Match, Print, WellFormed); }
    }
  }

  /** Adding one shift after the other. */
  method AddShifts(found: seq<Offset>, now: real) returns (r: Option<real>)
    requires forall o :: o in found ==> WellFormed(o)
    ensures r == if AllKnown(found) then Some(now + Total(found)) else None
  {
    var result := now;
    assert found[0..] == found;
    for i := 0 to |found|
      invariant AllKnown(found[..i])
      invariant AllKnown(found) ==> AllKnown(found[i..]) && result + Total(found[i..]) == now + Total(found)
    {
      var o := found[i];
      assert found[i..][1..] == found[i + 1..];
      assert o in found;
      if UnitSeconds(o.unit).None? { return None; }
      result := result + Shift(o);
    }
    assert found[..|found|] == found;
    r := Some(result);
  }

  /** An expression writes one list of offsets at most. */
  lemma WritesOne(expr: string, a: seq<Offset>, b: seq<Offset>)
    requires Writes(expr, a) && Writes(expr, b)
    ensures a == b
  {
    MatchFinds();
    assert ("now" + PrintAll(a))[3..] == PrintAll(a) && ("now" + PrintAll(b))[3..] == PrintAll(b);
    WritesIsTile(expr, PrintAll(a));
  }

  lemma NothingWritten(expr: string)
    requires !("now" <= Strip(expr))
    ensures forall offsets :: !Writes(expr, offsets)
  {
    forall offsets ensures !Writes(expr, offsets) {
      assert "now" <= "now" + PrintAll(offsets);
    }
  }

  /** `resolve_relative_expr`: the sum of the offsets the expression writes, and nothing when it writes none. */
  method ResolveRelativeExpr(expr: string, now: real) returns (r: Option<real>, ghost offsets: seq<Offset>)
    ensures r.Some? ==> Writes(expr, offsets) && r == Some(now + Total(offsets))
    ensures r.None? ==> forall os :: !Writes(expr, os)
  {
    var normalized := Strip(expr);
    offsets := [];
    if !("now" <= normalized) {
      NothingWritten(expr);
      return None, [];
    }
    var rest := normalized[3..];
    assert normalized == "now" + rest;
    r, offsets := ResolveOffsets(expr, rest, now);
  }

  method ResolveOffsets(ghost expr: string, rest: string, now: real)
    returns (r: Option<real>, ghost offsets: seq<Offset>)
    requires Strip(expr) == "now" + rest
    ensures r.Some? ==> Writes(expr, offsets) && r == Some(now + Total(offsets))
    ensures r.None? ==> forall os :: !Writes(expr, os)
  {
    MatchFinds();
    WritesIsTile(expr, rest);
    var found, consumed := FindAll(rest, Match, Print, WellFormed);
    r := AddShifts(found, now);
    offsets := found;
    if consumed != |rest| { r := None; }
  }

  // ---- Printed integers ---------------------------------------------------------------

  function IntOffset(n: int, unit: string): Offset {
    Offset(n >= 0, Digits(if n < 0 then -n else n), None, unit)
  }

  predicate KnownUnit(unit: string) {
    UnitSeconds(unit).Some?
  }

  lemma IntAmount(n: int, unit: string)
    requires KnownUnit(unit)
    ensures Known(IntOffset(n, unit)) && Amount(IntOffset(n, unit)) == if n < 0 then -(n as real) else n as real
  {
    UnitsAreLetters(unit);
    DigitsRead(if n < 0 then -n else n);
  }

  lemma MinusTimes(a: real, b: real)
    ensures -(-a * b) == a * b
  {}

  lemma IntOffsetMeans(n: int, unit: string)
    requires KnownUnit(unit)
    ensures Known(IntOffset(n, unit)) && Shift(IntOffset(n, unit)) == n as real * UnitSeconds(unit).value
  {
    IntAmount(n, unit);
    MinusTimes(n as real, UnitSeconds(unit).value);
  }

  predicate KnownUnits(amounts: seq<(int, string)>) {
    forall a :: a in amounts ==> KnownUnit(a.1)
  }

  function IntOffsets(amounts: seq<(int, string)>): seq<Offset> {
    if amounts == [] then [] else [IntOffset(amounts[0].0, amounts[0].1)] + IntOffsets(amounts[1..])
  }

  function SumSeconds(amounts: seq<(int, string)>): real
    requires KnownUnits(amounts)
  {
    if amounts == [] then 0.0
    else amounts[0].0 as real * UnitSeconds(amounts[0].1).value + SumSeconds(amounts[1..])
  }

  lemma {:induction false} IntOffsetsTotal(amounts: seq<(int, string)>)
    requires KnownUnits(amounts)
    ensures AllKnown(IntOffsets(amounts)) && Total(IntOffsets(amounts)) == SumSeconds(amounts)
  {
    if amounts != [] {
      IntOffsetMeans(amounts[0].0, amounts[0].1);
      IntOffsetsTotal(amounts[1..]);
      var head, tail := IntOffset(amounts[0].0, amounts[0].1), IntOffsets(amounts[1..]);
      TotalHead(head, tail);
    }
  }

  lemma TotalHead(head: Offset, tail: seq<Offset>)
    requires Known(head) && AllKnown(tail)
    ensures AllKnown([head] + tail) && Total([head] + tail) == Shift(head) + Total(tail)
  {
    assert ([head] + tail)[1..] == tail;
  }

  lemma {:induction false} EndsInLetter(offsets: seq<Offset>)
    requires AllKnown(offsets) && offsets != []
    ensures var s := PrintAll(offsets); s != "" && IsLetter(s[|s| - 1])
  {
    var o := offsets[0];
    assert Known(o);
    var text := Print(o);
    assert text[|text| - 1] == o.unit[|o.unit| - 1] && IsLetter(o.unit[|o.unit| - 1]);
    if |offsets| > 1 { EndsInLetter(offsets[1..]); }
    assert PrintAll(offsets) == text + PrintAll(offsets[1..]);
  }

  /** Printed integer offsets are read back as written, and mean their signed sum. */
  lemma PrintedIntegers(amounts: seq<(int, string)>)
    requires KnownUnits(amounts)
    ensures var offsets := IntOffsets(amounts);
      Writes("now" + PrintAll(offsets), offsets) && Total(offsets) == SumSeconds(amounts)
  {
    var offsets := IntOffsets(amounts);
    var expr := "now" + PrintAll(offsets);
    IntOffsetsTotal(amounts);
    NowIsStripped(offsets);
    StripIsStripped(expr);
  }

  lemma NowIsStripped(offsets: seq<Offset>)
    requires AllKnown(offsets)
    ensures Stripped("now" + PrintAll(offsets))
  {
    var expr := "now" + PrintAll(offsets);
    assert expr[0] == 'n';
    if offsets != [] {
      EndsInLetter(offsets);
      assert expr[|expr| - 1] == PrintAll(offsets)[|PrintAll(offsets)| - 1];
    }
  }

  // ---- How long a unit is, and what digits after the point mean ----------------------------

  lemma Seconds(u: string)
    requires u in {"s", "sec", "secs", "second", "seconds"}
    ensures u in UNITS && UNITS[u] == 1.0
  {}

  lemma Minutes(u: string)
    requires u in {"m", "min", "mins", "minute", "minutes"}
    ensures u in UNITS && UNITS[u] == 60.0
  {}

  lemma Hours(u: string)
    requires u in {"h", "hr", "hrs", "hour", "hours"}
    ensures u in UNITS && UNITS[u] == 3600.0
  {}

  lemma Days(u: string)
    requires u in {"d", "day", "days"}
    ensures u in UNITS && UNITS[u] == 86400.0
  {}

  lemma Weeks(u: string)
    requires u in {"w", "week", "weeks"}
    ensures u in UNITS && UNITS[u] == 604800.0
  {}

  const UNIT_NAMES: set<string> := {
    "s", "sec", "secs", "second", "seconds", "m", "min", "mins", "minute", "minutes", "h", "hr", "hrs", "hour", "hours",
    "d", "day", "days", "w", "week", "weeks"
  }

  /** Every unit is written in letters, which is how far the pattern reads. */
  lemma UnitsAreLetters(unit: string)
    requires UnitSeconds(unit).Some?
    ensures unit != "" && forall c :: c in unit ==> IsLetter(c)
  {
    var u := Lower(unit);
    assert u in UNIT_NAMES && u != "";
    forall c | c in u ensures 'a' <= c <= 'z' { NamesAreLetters(u, c); }
    forall c | c in unit ensures IsLetter(c) {
      var i :| 0 <= i < |unit| && unit[i] == c;
      assert u[i] == LowerChar(c) && u[i] in u;
    }
  }

  /** The letters of the pattern, by their codes. */
  lemma LettersAre(c: char)
    ensures IsLetter(c) <==> 97 <= c as int < 97 + 26 || 65 <= c as int < 65 + 26
  {}

  lemma NamesAreLetters(u: string, c: char)
    requires u in UNIT_NAMES && c in u
    ensures 'a' <= c <= 'z'
  {}

  /** Every way to write a unit, in any case, and no other. */
  lemma UnitsMean(unit: string)
    ensures var u, s := Lower(unit), UnitSeconds(unit);
      && (u in {"s", "sec", "secs", "second", "seconds"} ==> s == Some(1.0))
      && (u in {"m", "min", "mins", "minute", "minutes"} ==> s == Some(60.0))
      && (u in {"h", "hr", "hrs", "hour", "hours"} ==> s == Some(3600.0))
      && (u in {"d", "day", "days"} ==> s == Some(86400.0))
      && (u in {"w", "week", "weeks"} ==> s == Some(604800.0))
      && (u !in UNIT_NAMES ==> s == None)
  {
    var u := Lower(unit);
    if u in {"s", "sec", "secs", "second", "seconds"} { Seconds(u); }
    if u in {"m", "min", "mins", "minute", "minutes"} { Minutes(u); }
    if u in {"h", "hr", "hrs", "hour", "hours"} { Hours(u); }
    if u in {"d", "day", "days"} { Days(u); }
    if u in {"w", "week", "weeks"} { Weeks(u); }
  }

  /** The number with so many zeros appended. */
  function Shifted(n: nat, places: nat): nat {
    if places == 0 then n else 10 * Shifted(n, places - 1)
  }

  lemma {:induction false} TenthsOfShifted(n: nat, places: nat)
    ensures Tenths(Shifted(n, places) as real, places) == n as real
  {
    if places > 0 { TenthsOfShifted(n, places - 1); }
  }

  lemma {:induction false} TenthsOfSum(x: real, y: real, places: nat)
    ensures Tenths(x + y, places) == Tenths(x, places) + Tenths(y, places)
    decreases places
  {
    if places > 0 { TenthsOfSum(x / 10.0, y / 10.0, places - 1); }
  }

  lemma NumberLast(s: string, c: char)
    requires (forall d :: d in s ==> IsDigit(d)) && IsDigit(c)
    ensures NumberOf(s + [c]) == 10 * NumberOf(s) + (c as int - '0' as int)
  {
    assert (s + [c])[..|s|] == s;
  }

  lemma {:induction false} NumberAppend(a: string, b: string)
    requires (forall c :: c in a ==> IsDigit(c)) && forall c :: c in b ==> IsDigit(c)
    ensures NumberOf(a + b) == Shifted(NumberOf(a), |b|) + NumberOf(b)
  {
    if b == "" {
      assert a + b == a;
    } else {
      var short, c := b[..|b| - 1], b[|b| - 1];
      assert b == short + [c] && a + b == (a + short) + [c];
      NumberAppend(a, short);
      NumberLast(a + short, c);
      NumberLast(short, c);
    }
  }

  /** An amount with digits after the point is the number all its digits spell, the point moved by as many places. */
  lemma AmountMeans(o: Offset)
    requires WellFormed(o)
    ensures o.fraction.None? ==> Amount(o) == NumberOf(o.whole) as real
    ensures o.fraction.Some? ==>
      Amount(o) == Tenths(NumberOf(o.whole + o.fraction.value) as real, |o.fraction.value|)
  {
    if o.fraction.Some? {
      var f := o.fraction.value;
      NumberAppend(o.whole, f);
      TenthsOfSum(Shifted(NumberOf(o.whole), |f|) as real, NumberOf(f) as real, |f|);
      TenthsOfShifted(NumberOf(o.whole), |f|);
    }
  }

  /** Every place divides by ten. */
  lemma {:induction false} TenthsMean(x: real, places: nat)
    ensures Tenths(x, 0) == x && 10.0 * Tenths(x, places + 1) == Tenths(x, places)
    decreases places
  {
    if places > 0 { TenthsMean(x / 10.0, places - 1); }
  }
}
