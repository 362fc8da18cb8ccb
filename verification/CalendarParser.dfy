/** Calendar expressions: dates, aliases, systemd daily times and five-field crontab lines. */
module CalendarParser {
  import opened Values
  import opened Text
  import opened Numerals
  import opened CronFields

  predicate NotSpace(c: char) {
    !IsSpace(c)
  }

  /** `s.split()`. */
  function Words(s: string): seq<string>
    decreases |s|
  {
    if s == "" then []
    else if IsSpace(s[0]) then Words(s[1..])
    else [s[..Lead(s, NotSpace)]] + Words(s[Lead(s, NotSpace)..])
  }

  predicate Word(w: string) {
    w != "" && forall c :: c in w ==> NotSpace(c)
  }

  lemma WordThen(w: string, rest: string)
    requires Word(w) && (rest == "" || IsSpace(rest[0]))
    ensures Words(w + rest) == [w] + Words(rest)
  {
    LeadIs(w, rest, NotSpace);
    assert w[0] in w && (w + rest)[0] == w[0];
    assert (w + rest)[..|w|] == w && (w + rest)[|w|..] == rest;
  }

  lemma OneWord(w: string)
    requires Word(w)
    ensures Words(w) == [w]
  {
    WordThen(w, "");
    assert w + "" == w;
  }

  /** Splitting words joined by a blank gives the words back. */
  lemma {:induction false} WordsOfJoin(words: seq<string>)
    requires forall w :: w in words ==> Word(w)
    ensures Words(JoinWith(words, ' ')) == words
  {
    if words != [] {
      var head, tail := words[0], words[1..];
      WordsOfJoin(tail);
      if tail == [] {
        OneWord(head);
      } else {
        var rest := [' '] + JoinWith(tail, ' ');
        WordThen(head, rest);
        assert JoinWith(words, ' ') == head + rest;
      }
    }
  }

  lemma {:induction false} WordsTrailing(s: string, c: char)
    requires IsSpace(c)
    ensures Words(s + [c]) == Words(s)
    decreases |s|
  {
    if s == "" {
      assert Words([c]) == [];
    } else if IsSpace(s[0]) {
      assert (s + [c])[1..] == s[1..] + [c];
      WordsTrailing(s[1..], c);
    } else {
      var n := Lead(s, NotSpace);
      var w, rest := s[..n], s[n..];
      assert s == w + rest && s + [c] == w + (rest + [c]);
      WordThen(w, rest);
      WordThen(w, rest + [c]);
      WordsTrailing(rest, c);
    }
  }

  lemma {:induction false} WordsOfStripLeft(s: string)
    ensures Words(StripLeft(s)) == Words(s)
  {
    if s != "" && IsSpace(s[0]) { WordsOfStripLeft(s[1..]); }
  }

  lemma {:induction false} WordsOfStripRight(s: string)
    ensures Words(StripRight(s)) == Words(s)
  {
    if s != "" && IsSpace(s[|s| - 1]) {
      WordsOfStripRight(s[..|s| - 1]);
      WordsTrailing(s[..|s| - 1], s[|s| - 1]);
      assert s[..|s| - 1] + [s[|s| - 1]] == s;
    }
  }

  /** White space at the ends is no word. */
  lemma WordsOfStrip(s: string)
    ensures Words(Strip(s)) == Words(s)
  {
    WordsOfStripLeft(s);
    WordsOfStripRight(StripLeft(s));
  }

  /** A word ends at the first blank, and a run of blanks of any kind parts two words. */
  lemma WordsPart(w: string, gap: string, rest: string)
    requires w != "" && gap != ""
    requires forall c :: c in w ==> !Blank(c)
    requires forall c :: c in gap ==> Blank(c)
    ensures Words(w + gap + rest) == [w] + Words(rest)
  {
    forall c ensures Blank(c) <==> IsSpace(c) { BlankIsSpace(c); }
    assert w + gap + rest == w + (gap + rest);
    WordThen(w, gap + rest);
    WordsAfter(gap, rest);
  }

  lemma {:induction false} WordsAfter(gap: string, rest: string)
    requires forall c :: c in gap ==> IsSpace(c)
    ensures Words(gap + rest) == Words(rest)
  {
    if gap == "" {
      assert gap + rest == rest;
    } else {
      assert (gap + rest)[1..] == gap[1..] + rest;
      WordsAfter(gap[1..], rest);
    }
  }

  // ---- The parser ---------------------------------------------------------------

  datatype Trigger = Date(runAt: real) | Cron(fields: seq<string>)

  datatype Outcome = Scheduled(expression: string, trigger: Trigger) | Rejected

  /** The bounds of minute, hour, day, month and day of week. */
  function Bounds(field: nat): (nat, nat) {
    if field == 0 then (0, 59)
    else if field == 1 then (0, 23)
    else if field == 2 then (1, 31)
    else if field == 3 then (1, 12)
    else (0, 7)
  }

  predicate ValidFields(fields: seq<string>) {
    |fields| == 5 && forall i :: 0 <= i < 5 ==> ValidField(fields[i], Bounds(i).0, Bounds(i).1)
  }

  /** `_parse_crontab_5`; None when the text has not five words. */
  function ParseCrontab(text: string): Option<Outcome> {
    var parts := Words(text);
    if |parts| != 5 then None
    else if ValidFields(parts) then Some(Scheduled(text, Cron(parts)))
    else Some(Rejected)
  }

  predicate OneOrTwoDigits(s: string) {
    IsDigits(s) && |s| <= 2
  }

  /** `hour:minute:second`, the hour possibly `*`. */
  predicate IsClock(s: string) {
    var parts := SplitOn(s, ':');
    && |parts| == 3 && (parts[0] == "*" || OneOrTwoDigits(parts[0]))
    && OneOrTwoDigits(parts[1]) && OneOrTwoDigits(parts[2])
  }

  const DAILY := "*-*-* "

  /** `_parse_systemd_daily_time`; None when the text is of another form. */
  function ParseSystemdDaily(text: string): Option<Outcome> {
    if DAILY <= text then Some(DailyAt(text, Strip(text[|DAILY|..])))
    else if ' ' !in text && IsClock(text) then Some(DailyAt(text, text))
    else None
  }

  function DailyAt(text: string, time: string): Outcome {
    if !IsClock(time) then Rejected
    else
      var parts := SplitOn(time, ':');
      if parts[2] != "00" then Rejected
      else if parts[0] != "*" && !ValidNumber(parts[0], 0, 23) then Rejected
      else if !ValidNumber(parts[1], 0, 59) then Rejected
      else
        var hour := if parts[0] == "*" then "*" else Digits(NumberOf(parts[0]));
        Scheduled(text, Cron([Digits(NumberOf(parts[1])), hour, "*", "*", "*"]))
  }

  function Alias(name: string): Option<string> {
    if name == "@hourly" then Some("0 * * * *")
    else if name == "@daily" then Some("0 0 * * *")
    else if name == "@weekly" then Some("0 0 * * 0")
    else if name == "@monthly" then Some("0 0 1 * *")
    else None
  }

  /** A final `Z` is written as an offset before the date is read. */
  function IsoText(text: string): string {
    if text != "" && text[|text| - 1] == 'Z' then text[..|text| - 1] + "+00:00" else text
  }

  /** The moment a date or a date with time names; `iso` reads ISO texts in the schedule's time zone. */
  function ReadDate(text: string, iso: string -> Option<real>): Option<real> {
    if iso(IsoText(text)).Some? then iso(IsoText(text))
    else if 'T' !in text && ' ' !in text then iso(text + "T00:00:00")
    else None
  }

  /** `parse_calendar_expression`. */
  function ParseCalendar(expression: string, iso: string -> Option<real>, now: real): Outcome {
    var text := Strip(expression);
    if text == "" then Rejected
    else if Lower(text) == "now" then Scheduled(text, Date(now))
    else if ReadDate(text, iso).Some? then Scheduled(text, Date(ReadDate(text, iso).value))
    else if Alias(Lower(text)).Some? then
      var parsed := ParseCrontab(Alias(Lower(text)).value);
      if parsed.None? || parsed.value.Rejected? then Rejected else Scheduled(text, parsed.value.trigger)
    else if ParseSystemdDaily(text).Some? then ParseSystemdDaily(text).value
    else if ParseCrontab(text).Some? then ParseCrontab(text).value
    else Rejected
  }

  // ---- Every accepted schedule has five valid fields --------------------------------

  lemma StarIsField(low: nat, high: nat)
    ensures ValidField("*", low, high)
  {
    SplitPrefix("*", "", ',');
  }

  lemma DailyIsValid(text: string, time: string)
    ensures DailyAt(text, time).Scheduled? ==>
      DailyAt(text, time).trigger.Cron? && ValidFields(DailyAt(text, time).trigger.fields)
  {
    if DailyAt(text, time).Scheduled? {
      var parts := SplitOn(time, ':');
      NumberIsField(NumberOf(parts[1]), 0, 59);
      if parts[0] != "*" { NumberIsField(NumberOf(parts[0]), 0, 23); }
      forall i | 0 <= i < 5 ensures ValidField("*", Bounds(i).0, Bounds(i).1) { StarIsField(Bounds(i).0, Bounds(i).1); }
    }
  }

  /** A cron schedule, however it was written, has five fields in range. */
  lemma AcceptedFieldsAreValid(expression: string, iso: string -> Option<real>, now: real)
    ensures var r := ParseCalendar(expression, iso, now);
      r.Scheduled? && r.trigger.Cron? ==> ValidFields(r.trigger.fields)
  {
    SystemdIsValid(Strip(expression));
  }

  lemma SystemdIsValid(text: string)
    ensures var r := ParseSystemdDaily(text);
      r.Some? && r.value.Scheduled? ==> r.value.trigger.Cron? && ValidFields(r.value.trigger.fields)
  {
    DailyIsValid(text, text);
    if DAILY <= text { DailyIsValid(text, Strip(text[|DAILY|..])); }
  }

  // ---- Crontab lines are read as their words -------------------------------------------

  /** A text without white space is one word. */
  lemma FewWords(s: string)
    requires forall c :: c in s ==> NotSpace(c)
    ensures |Words(s)| <= 1
  {
    if s != "" { OneWord(s); }
  }

  lemma LowerSpaces(s: string, name: string)
    requires Lower(s) == name && forall c :: c in name ==> NotSpace(c)
    ensures |Words(s)| <= 1
  {
    forall c | c in s ensures NotSpace(c) {
      var i :| 0 <= i < |s| && s[i] == c;
      assert name[i] == LowerChar(c) && name[i] in name;
    }
    FewWords(s);
  }

  /** A time of day holds no white space. */
  lemma ClockIsWord(s: string)
    requires IsClock(s)
    ensures |Words(s)| <= 1
  {
    var parts := SplitOn(s, ':');
    JoinSplit(s, ':');
    assert parts == [parts[0], parts[1], parts[2]];
    assert parts[1..] == [parts[1], parts[2]] && parts[1..][1..] == [parts[2]];
    assert JoinWith(parts[1..], ':') == parts[1] + [':'] + parts[2];
    assert s == parts[0] + [':'] + JoinWith(parts[1..], ':');
    forall c | c in s ensures NotSpace(c) {
      assert c in parts[0] || c in parts[1] || c in parts[2] || c == ':';
      assert IsDigit(c) || c == '*' || c == ':';
    }
    FewWords(s);
  }

  /** A daily text of five words names no time, and its first word is no field. */
  lemma DailyOfFiveWords(text: string)
    requires DAILY <= text && |Words(text)| == 5
    ensures DailyAt(text, Strip(text[|DAILY|..])) == Rejected && !ValidFields(Words(text))
  {
    var star, rest := "*-*-*", text[|DAILY|..];
    assert text == star + ([' '] + rest);
    WordThen(star, [' '] + rest);
    assert ([' '] + rest)[1..] == rest;
    WordsOfStrip(rest);
    if IsClock(Strip(rest)) {
      ClockIsWord(Strip(rest));
    }
    StarsAreNoField();
    assert Words(text)[0] == star;
  }

  lemma StarsAreNoField()
    ensures !ValidField("*-*-*", 0, 59)
  {
    ThreeStars("*", "*-*-*");
    ThreePartsAreNoField("*-*-*", 0, 59);
  }

  lemma ThreePartsAreNoField(t: string, low: nat, high: nat)
    requires |SplitOn(t, '-')| == 3 && '-' in t && ',' !in t && '/' !in t
    ensures !ValidField(t, low, high)
  {
    SplitPrefix(t, "", ',');
    assert t in SplitOn(t, ',');
  }

  lemma ThreeStars(star: string, stars: string)
    requires '-' !in star && stars == star + ['-'] + (star + ['-'] + star)
    ensures SplitOn(stars, '-') == [star, star, star]
  {
    SplitPrefix(star, star + ['-'] + star, '-');
    SplitPrefix(star, star, '-');
  }

  lemma FiveWordsRead(expression: string, iso: string -> Option<real>, now: real)
    requires |Words(expression)| == 5 && ReadDate(Strip(expression), iso).None?
    ensures ParseCalendar(expression, iso, now)
      == if ValidFields(Words(expression)) then Scheduled(Strip(expression), Cron(Words(expression))) else Rejected
  {
    var text := Strip(expression);
    WordsOfStrip(expression);
    if Lower(text) == "now" { LowerSpaces(text, "now"); }
    if Alias(Lower(text)).Some? { LowerSpaces(text, Lower(text)); }
    if DAILY <= text {
      DailyOfFiveWords(text);
    } else if IsClock(text) {
      ClockIsWord(text);
    }
  }

  /** Five words that are no date are accepted exactly when each is a valid minute, hour, day, month or day of the week,
      and kept as they are. */
  lemma FiveWords(expression: string, iso: string -> Option<real>, now: real)
    requires |Words(expression)| == 5 && ReadDate(Strip(expression), iso).None?
    ensures var w := Words(expression);
      ParseCalendar(expression, iso, now) ==
        if ValidField(w[0], 0, 59) && ValidField(w[1], 0, 23) && ValidField(w[2], 1, 31) && ValidField(w[3], 1, 12)
          && ValidField(w[4], 0, 7)
        then Scheduled(Strip(expression), Cron(w)) else Rejected
  {
    FiveWordsRead(expression, iso, now);
    FiveBounds(Words(expression));
  }

  lemma FiveBounds(w: seq<string>)
    requires |w| == 5
    ensures ValidFields(w) <==>
      && ValidField(w[0], 0, 59) && ValidField(w[1], 0, 23) && ValidField(w[2], 1, 31) && ValidField(w[3], 1, 12)
      && ValidField(w[4], 0, 7)
  {
    forall i | 0 <= i < 5 ensures Bounds(i) == [(0, 59), (0, 23), (1, 31), (1, 12), (0, 7)][i] {}
  }

  // ---- Printing a schedule's fields ----------------------------------------------------

  lemma FieldsAreWords(fields: seq<string>)
    requires ValidFields(fields)
    ensures forall w :: w in fields ==> Word(w)
  {
    forall w | w in fields ensures Word(w) {
      var i :| 0 <= i < 5 && fields[i] == w;
      ValidFieldIsWord(w, Bounds(i).0, Bounds(i).1);
      assert forall c :: c in w ==> FieldChar(c);
    }
  }

  lemma {:induction false} JoinOfWordsStripped(words: seq<string>)
    requires words != [] && forall w :: w in words ==> Word(w)
    ensures var s := JoinWith(words, ' '); s != "" && NotSpace(s[0]) && NotSpace(s[|s| - 1])
  {
    var w := words[0];
    assert Word(w) && w[0] in w && w[|w| - 1] in w;
    if |words| > 1 {
      JoinOfWordsStripped(words[1..]);
      var rest := JoinWith(words[1..], ' ');
      assert JoinWith(words, ' ') == w + [' '] + rest;
    }
  }

  /** Joining an accepted schedule's fields with blanks gives a text that reads back as the same fields. */
  lemma JoinReparses(expression: string, iso: string -> Option<real>, now: real)
    requires var r := ParseCalendar(expression, iso, now); r.Scheduled? && r.trigger.Cron?
    requires ReadDate(JoinWith(ParseCalendar(expression, iso, now).trigger.fields, ' '), iso).None?
    ensures var fields := ParseCalendar(expression, iso, now).trigger.fields;
      var line := JoinWith(fields, ' ');
      ParseCalendar(line, iso, now) == Scheduled(line, Cron(fields))
  {
    var fields := ParseCalendar(expression, iso, now).trigger.fields;
    AcceptedFieldsAreValid(expression, iso, now);
    LineReparses(fields, iso, now);
  }

  lemma LineReparses(fields: seq<string>, iso: string -> Option<real>, now: real)
    requires ValidFields(fields) && ReadDate(JoinWith(fields, ' '), iso).None?
    ensures var line := JoinWith(fields, ' '); ParseCalendar(line, iso, now) == Scheduled(line, Cron(fields))
  {
    var line := JoinWith(fields, ' ');
    FieldsAreWords(fields);
    WordsOfJoin(fields);
    JoinOfWordsStripped(fields);
    StripIsStripped(line);
    FiveWordsRead(line, iso, now);
  }

  // ---- What aliases and times of day mean ------------------------------------------------

  predicate AliasFor(name: string, fields: seq<string>) {
    || (name == "@hourly" && fields == ["0", "*", "*", "*", "*"])
    || (name == "@daily" && fields == ["0", "0", "*", "*", "*"])
    || (name == "@weekly" && fields == ["0", "0", "*", "*", "0"])
    || (name == "@monthly" && fields == ["0", "0", "1", "*", "*"])
  }

  /** Five words joined by blanks. */
  lemma JoinFive(a: string, b: string, c: string, d: string, e: string)
    ensures JoinWith([a, b, c, d, e], ' ') == a + " " + b + " " + c + " " + d + " " + e
  {
    assert [a, b, c, d, e][1..] == [b, c, d, e] && [b, c, d, e][1..] == [c, d, e] && [c, d, e][1..] == [d, e];
    assert [d, e][1..] == [e] && JoinWith([e], ' ') == e;
    assert JoinWith([d, e], ' ') == d + " " + e;
    assert JoinWith([c, d, e], ' ') == c + " " + (d + " " + e);
    assert JoinWith([b, c, d, e], ' ') == b + " " + (c + " " + (d + " " + e));
  }

  lemma AliasLine(name: string, fields: seq<string>)
    requires AliasFor(name, fields)
    ensures Alias(name) == Some(JoinWith(fields, ' '))
  {
    JoinFive(fields[0], fields[1], fields[2], fields[3], fields[4]);
    assert fields == [fields[0], fields[1], fields[2], fields[3], fields[4]];
    var line := JoinWith(fields, ' ');
    if name == "@hourly" { SameLine(fields, line, "0 * * * *"); }
    if name == "@daily" { SameLine(fields, line, "0 0 * * *"); }
    if name == "@weekly" { SameLine(fields, line, "0 0 * * 0"); }
    if name == "@monthly" { SameLine(fields, line, "0 0 1 * *"); }
  }

  /** Five one-letter words, each followed by a blank. */
  lemma SameLine(fields: seq<string>, line: string, text: string)
    requires |fields| == 5 && (forall i :: 0 <= i < 5 ==> |fields[i]| == 1)
    requires line == fields[0] + " " + fields[1] + " " + fields[2] + " " + fields[3] + " " + fields[4]
    requires |text| == 9 && text[1] == text[3] == text[5] == text[7] == ' '
    requires [text[0]] == fields[0] && [text[2]] == fields[1] && [text[4]] == fields[2] && [text[6]] == fields[3]
    requires [text[8]] == fields[4]
    ensures line == text
  {}

  lemma SmallNumbers()
    ensures Digits(0) == "0" && Digits(1) == "1"
  {}

  lemma AliasFieldsValid(name: string, fields: seq<string>)
    requires AliasFor(name, fields)
    ensures ValidFields(fields) && forall w :: w in fields ==> Word(w)
  {
    SmallNumbers();
    forall i | 0 <= i < 5 ensures ValidField(fields[i], Bounds(i).0, Bounds(i).1) {
      StarIsField(Bounds(i).0, Bounds(i).1);
      if fields[i] == "0" { NumberIsField(0, Bounds(i).0, Bounds(i).1); }
      if fields[i] == "1" { NumberIsField(1, Bounds(i).0, Bounds(i).1); }
    }
    FieldsAreWords(fields);
  }

  lemma CrontabOf(fields: seq<string>)
    requires ValidFields(fields) && forall w :: w in fields ==> Word(w)
    ensures ParseCrontab(JoinWith(fields, ' ')) == Some(Scheduled(JoinWith(fields, ' '), Cron(fields)))
  {
    WordsOfJoin(fields);
  }

  lemma AliasRead(expression: string, iso: string -> Option<real>, now: real, name: string, line: string,
    fields: seq<string>)
    requires Lower(Strip(expression)) == name && name !in {"", "now"} && ReadDate(Strip(expression), iso).None?
    requires Alias(name) == Some(line) && ParseCrontab(line) == Some(Scheduled(line, Cron(fields)))
    ensures ParseCalendar(expression, iso, now) == Scheduled(Strip(expression), Cron(fields))
  {}

  /** An alias that is no date stands for its fields. */
  lemma AliasMeans(expression: string, iso: string -> Option<real>, now: real, name: string, fields: seq<string>)
    requires Lower(Strip(expression)) == name && AliasFor(name, fields) && ReadDate(Strip(expression), iso).None?
    ensures ParseCalendar(expression, iso, now) == Scheduled(Strip(expression), Cron(fields))
  {
    AliasLine(name, fields);
    AliasFieldsValid(name, fields);
    CrontabOf(fields);
    AliasRead(expression, iso, now, name, JoinWith(fields, ' '), fields);
  }

  /** A time of day on the full minute: one or two digits each, in range, or every hour. */
  predicate TimeOfDay(hour: string, minute: string) {
    && (hour == "*" || (IsDigits(hour) && |hour| <= 2 && NumberOf(hour) <= 23))
    && IsDigits(minute) && |minute| <= 2 && NumberOf(minute) <= 59
  }

  function Clock(hour: string, minute: string): string {
    hour + [':'] + (minute + [':'] + "00")
  }

  lemma ClockParts(hour: string, minute: string)
    requires TimeOfDay(hour, minute)
    ensures SplitOn(Clock(hour, minute), ':') == [hour, minute, "00"]
    ensures Strip(Clock(hour, minute)) == Clock(hour, minute)
  {
    SplitPrefix(hour, minute + [':'] + "00", ':');
    SplitPrefix(minute, "00", ':');
    SplitPrefix("00", "", ':');
    assert hour[0] in hour;
    StripIsStripped(Clock(hour, minute));
  }

  lemma ClockFires(text: string, hour: string, minute: string)
    requires TimeOfDay(hour, minute)
    ensures DailyAt(text, Clock(hour, minute)) == Scheduled(text,
      Cron([Digits(NumberOf(minute)), if hour == "*" then "*" else Digits(NumberOf(hour)), "*", "*", "*"]))
  {
    ClockParts(hour, minute);
  }

  /** No other time is accepted. */
  lemma OnlyClocksFire(text: string, time: string) returns (hour: string, minute: string)
    requires DailyAt(text, time) != Rejected
    ensures TimeOfDay(hour, minute) && time == Clock(hour, minute)
  {
    var parts := SplitOn(time, ':');
    JoinSplit(time, ':');
    hour, minute := parts[0], parts[1];
    assert parts == [hour, minute, parts[2]];
    assert parts[1..] == [minute, parts[2]] && parts[1..][1..] == [parts[2]];
    assert JoinWith(parts[1..], ':') == minute + [':'] + parts[2];
  }

  lemma NotNamed(text: string)
    requires text != "" && (IsDigit(text[0]) || text[0] == '*')
    ensures Lower(text) != "now" && Alias(Lower(text)).None?
  {
    assert Lower(text)[0] == text[0];
  }

  lemma PlainClockRead(hour: string, minute: string)
    requires TimeOfDay(hour, minute)
    ensures var clock := Clock(hour, minute); ParseSystemdDaily(clock) == Some(DailyAt(clock, clock))
  {
    var clock := Clock(hour, minute);
    ClockParts(hour, minute);
    assert clock[0] == hour[0] && hour[0] in hour;
    assert |hour| > 1 ==> clock[1] in hour;
    assert |hour| == 1 ==> clock[1] == ':';
    assert ' ' !in clock;
  }

  lemma PrefixedClockRead(text: string, hour: string, minute: string)
    requires TimeOfDay(hour, minute) && text == "*-*-* " + Clock(hour, minute)
    ensures ParseSystemdDaily(text) == Some(DailyAt(text, Clock(hour, minute)))
  {
    ClockParts(hour, minute);
    assert text[|DAILY|..] == Clock(hour, minute);
  }

  lemma DailyRead(expression: string, iso: string -> Option<real>, now: real, r: Outcome)
    requires ReadDate(Strip(expression), iso).None? && Strip(expression) != ""
    requires IsDigit(Strip(expression)[0]) || Strip(expression)[0] == '*'
    requires ParseSystemdDaily(Strip(expression)) == Some(r)
    ensures ParseCalendar(expression, iso, now) == r
  {
    NotNamed(Strip(expression));
  }

  /** `h:m:00`, with or without the daily prefix, fires every day at that hour and minute. */
  lemma DailyMeans(expression: string, iso: string -> Option<real>, now: real, hour: string, minute: string)
    requires TimeOfDay(hour, minute) && ReadDate(Strip(expression), iso).None?
    requires Strip(expression) == "*-*-* " + Clock(hour, minute) || Strip(expression) == Clock(hour, minute)
    ensures ParseCalendar(expression, iso, now) == Scheduled(Strip(expression),
      Cron([Digits(NumberOf(minute)), if hour == "*" then "*" else Digits(NumberOf(hour)), "*", "*", "*"]))
  {
    var text, clock := Strip(expression), Clock(hour, minute);
    assert clock[0] == hour[0] && hour[0] in hour;
    PlainClockRead(hour, minute);
    if text != clock { PrefixedClockRead(text, hour, minute); }
    ClockFires(text, hour, minute);
    DailyRead(expression, iso, now, DailyAt(text, clock));
  }

  /** A text with the daily prefix is accepted exactly when a time of day follows, unless it is a date. */
  lemma DailyAccepted(expression: string, iso: string -> Option<real>, now: real)
    requires "*-*-* " <= Strip(expression) && ReadDate(Strip(expression), iso).None?
    ensures ParseCalendar(expression, iso, now).Scheduled? <==>
      exists hour, minute :: TimeOfDay(hour, minute) && Strip(Strip(expression)[6..]) == Clock(hour, minute)
  {
    var text := Strip(expression);
    var time := Strip(text[6..]);
    NotNamed(text);
    assert ParseCalendar(expression, iso, now) == DailyAt(text, time);
    if DailyAt(text, time) != Rejected { var hour, minute := OnlyClocksFire(text, time); }
    if hour, minute :| TimeOfDay(hour, minute) && time == Clock(hour, minute) { ClockFires(text, hour, minute); }
  }

  // ---- Dates --------------------------------------------------------------------------------

  /** The moment the text names as it is, a final `Z` read as an offset of nothing. */
  predicate IsMoment(text: string, iso: string -> Option<real>, t: real) {
    text != "" &&
    iso(if text[|text| - 1] == 'Z' then text[..|text| - 1] + "+00:00" else text) == Some(t)
  }

  /** The midnight of the day the text names, if it names no moment and has no time in it. */
  ghost predicate IsDay(text: string, iso: string -> Option<real>, t: real) {
    && (forall u :: !IsMoment(text, iso, u)) && 'T' !in text && ' ' !in text
    && iso(text + "T00:00:00") == Some(t)
  }

  lemma MomentRead(text: string, iso: string -> Option<real>, t: real)
    requires text != ""
    ensures ReadDate(text, iso) == Some(t) <==> IsMoment(text, iso, t) || IsDay(text, iso, t)
  {
    if iso(IsoText(text)).Some? { assert IsMoment(text, iso, iso(IsoText(text)).value); }
  }

  /** A schedule of a single moment: `now`, or what the text reads as; a blank text is refused. */
  lemma DatesMean(expression: string, iso: string -> Option<real>, now: real, t: real)
    ensures Strip(expression) == "" ==> ParseCalendar(expression, iso, now) == Rejected
    ensures Lower(Strip(expression)) == "now" ==>
      ParseCalendar(expression, iso, now) == Scheduled(Strip(expression), Date(now))
    ensures Lower(Strip(expression)) !in {"", "now"} ==>
      (ParseCalendar(expression, iso, now) == Scheduled(Strip(expression), Date(t)) <==>
        IsMoment(Strip(expression), iso, t) || IsDay(Strip(expression), iso, t))
  {
    var text := Strip(expression);
    if text != "" {
      MomentRead(text, iso, t);
      if ReadDate(text, iso).None? && Lower(text) != "now" { NoDateIsCron(expression, iso, now); }
    }
  }

  lemma NoDateIsCron(expression: string, iso: string -> Option<real>, now: real)
    requires ReadDate(Strip(expression), iso).None? && Lower(Strip(expression)) != "now"
    ensures var r := ParseCalendar(expression, iso, now); r.Scheduled? ==> r.trigger.Cron?
  {
    SystemdIsValid(Strip(expression));
  }
}
