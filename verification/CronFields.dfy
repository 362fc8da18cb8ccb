/** The fields of a crontab line: the range validator, and the grammar it accepts. */
module CronFields {
  import opened Values
  import opened Text
  import opened Numerals

  /** `_validate_cron_number`. */
  predicate ValidNumber(v: string, low: nat, high: nat) {
    IsDigits(v) && low <= NumberOf(v) <= high
  }

  /** `_validate_cron_range`. */
  predicate ValidRange(v: string, low: nat, high: nat) {
    if v == "*" then true
    else if '-' !in v then ValidNumber(v, low, high)
    else
      var parts := SplitOn(v, '-');
      && |parts| == 2 && ValidNumber(parts[0], low, high) && ValidNumber(parts[1], low, high)
      && NumberOf(parts[0]) <= NumberOf(parts[1])
  }

  predicate ValidToken(t: string, low: nat, high: nat) {
    if '/' in t then
      var parts := SplitOn(t, '/');
      |parts| == 2 && IsDigits(parts[1]) && NumberOf(parts[1]) > 0 && ValidRange(parts[0], low, high)
    else ValidRange(t, low, high)
  }

  /** `_validate_cron_field`. */
  method ValidateCronField(v: string, low: nat, high: nat) returns (ok: bool)
    ensures ok == ValidField(v, low, high)
  {
    if v == "" { return false; }
    var tokens := SplitOn(v, ',');
    for i := 0 to |tokens|
      invariant forall t :: t in tokens[..i] ==> t != "" && ValidToken(t, low, high)
    {
      assert tokens[i] in tokens && tokens[..i + 1] == tokens[..i] + [tokens[i]];
      if tokens[i] == "" || !ValidToken(tokens[i], low, high) { return false; }
    }
    assert tokens[..|tokens|] == tokens;
    ok := true;
  }

  predicate ValidField(v: string, low: nat, high: nat) {
    v != "" && forall t :: t in SplitOn(v, ',') ==> t != "" && ValidToken(t, low, high)
  }

  // ---- The grammar --------------------------------------------------------------

  datatype Base = Any | At(number: string) | Span(first: string, last: string)

  datatype Item = Item(base: Base, step: Option<string>)

  predicate GoodBase(b: Base, low: nat, high: nat) {
    match b
    case Any => true
    case At(n) => IsDigits(n) && low <= NumberOf(n) <= high
    case Span(a, z) => IsDigits(a) && IsDigits(z) && low <= NumberOf(a) <= NumberOf(z) <= high
  }

  predicate GoodItem(i: Item, low: nat, high: nat) {
    GoodBase(i.base, low, high) && (i.step.Some? ==> IsDigits(i.step.value) && NumberOf(i.step.value) > 0)
  }

  function PrintBase(b: Base): string {
    match b
    case Any => "*"
    case At(n) => n
    case Span(a, z) => a + ['-'] + z
  }

  function PrintItem(i: Item): string {
    PrintBase(i.base) + (if i.step.Some? then ['/'] + i.step.value else "")
  }

  function PrintItems(items: seq<Item>): seq<string> {
    if items == [] then [] else [PrintItem(items[0])] + PrintItems(items[1..])
  }

  predicate GoodItems(items: seq<Item>, low: nat, high: nat) {
    items != [] && forall i :: i in items ==> GoodItem(i, low, high)
  }

  predicate Spells(items: seq<Item>, v: string) {
    v == JoinWith(PrintItems(items), ',')
  }

  lemma SplitOnce(a: string, c: char, b: string)
    requires c !in a && c !in b
    ensures SplitOn(a + [c] + b, c) == [a, b]
  {
    SplitPrefix(a, b, c);
    SplitPrefix(b, "", c);
  }

  lemma SplitTwo(s: string, c: char)
    requires |SplitOn(s, c)| == 2
    ensures s == SplitOn(s, c)[0] + [c] + SplitOn(s, c)[1] && c in s
  {
    JoinSplit(s, c);
    var parts := SplitOn(s, c);
    assert parts[1..] == [parts[1]];
  }

  lemma {:induction false} BaseSpelled(v: string, low: nat, high: nat) returns (b: Base)
    requires ValidRange(v, low, high)
    ensures GoodBase(b, low, high) && PrintBase(b) == v
  {
    if v == "*" { return Any; }
    if '-' !in v { return At(v); }
    SplitTwo(v, '-');
    var parts := SplitOn(v, '-');
    b := Span(parts[0], parts[1]);
  }

  lemma BaseAccepted(b: Base, low: nat, high: nat)
    requires GoodBase(b, low, high)
    ensures var v := PrintBase(b);
      ValidRange(v, low, high) && v != "" && forall c :: c in v ==> IsDigit(c) || c == '*' || c == '-'
  {
    if b.Span? { SplitOnce(b.first, '-', b.last); }
  }

  lemma StepSpelled(t: string, low: nat, high: nat) returns (i: Item)
    requires ValidToken(t, low, high) && '/' in t
    ensures GoodItem(i, low, high) && PrintItem(i) == t
  {
    SplitTwo(t, '/');
    var parts := SplitOn(t, '/');
    var b := BaseSpelled(parts[0], low, high);
    i := Item(b, Some(parts[1]));
    assert PrintItem(i) == parts[0] + (['/'] + parts[1]) == parts[0] + ['/'] + parts[1];
  }

  lemma ItemSpelled(t: string, low: nat, high: nat) returns (i: Item)
    requires ValidToken(t, low, high)
    ensures GoodItem(i, low, high) && PrintItem(i) == t
  {
    if '/' in t {
      i := StepSpelled(t, low, high);
    } else {
      var b := BaseSpelled(t, low, high);
      i := Item(b, None);
    }
  }

  /** The characters a field may hold. */
  predicate FieldChar(c: char) {
    IsDigit(c) || c == '*' || c == '-' || c == '/' || c == ','
  }

  predicate FieldChars(s: string) {
    forall c :: c in s ==> FieldChar(c)
  }

  lemma ItemAccepted(i: Item, low: nat, high: nat)
    requires GoodItem(i, low, high)
    ensures var t := PrintItem(i);
      ValidToken(t, low, high) && t != "" && ',' !in t && FieldChars(t)
  {
    BaseAccepted(i.base, low, high);
    if i.step.Some? {
      var b := PrintBase(i.base);
      SplitOnce(b, '/', i.step.value);
      assert PrintItem(i) == b + ['/'] + i.step.value;
    } else {
      assert PrintItem(i) == PrintBase(i.base);
    }
  }

  lemma {:induction false} ItemsSpelled(tokens: seq<string>, low: nat, high: nat) returns (items: seq<Item>)
    requires forall t :: t in tokens ==> ValidToken(t, low, high)
    ensures PrintItems(items) == tokens && forall i :: i in items ==> GoodItem(i, low, high)
  {
    if tokens == [] { return []; }
    var i := ItemSpelled(tokens[0], low, high);
    var rest := ItemsSpelled(tokens[1..], low, high);
    items := [i] + rest;
    assert items[1..] == rest;
  }

  lemma {:induction false} ItemsAccepted(items: seq<Item>, low: nat, high: nat)
    requires forall i :: i in items ==> GoodItem(i, low, high)
    ensures var tokens := PrintItems(items);
      && |tokens| == |items|
      && forall t :: t in tokens ==> t != "" && ValidToken(t, low, high) && ',' !in t && FieldChars(t)
  {
    if items != [] {
      ItemAccepted(items[0], low, high);
      ItemsAccepted(items[1..], low, high);
    }
  }

  /** The validator accepts exactly the fields the grammar spells. */
  lemma FieldGrammar(v: string, low: nat, high: nat)
    ensures ValidField(v, low, high) <==> exists items :: GoodItems(items, low, high) && Spells(items, v)
  {
    if ValidField(v, low, high) {
      JoinSplit(v, ',');
      var items := ItemsSpelled(SplitOn(v, ','), low, high);
      assert GoodItems(items, low, high) && Spells(items, v);
    }
    forall items | GoodItems(items, low, high) && Spells(items, v) ensures ValidField(v, low, high) {
      ItemsAccepted(items, low, high);
      SplitJoin(PrintItems(items), ',');
      assert v == "" ==> "" in SplitOn(v, ',');
    }
  }

  /** A valid field is one word. */
  lemma ValidFieldIsWord(v: string, low: nat, high: nat)
    requires ValidField(v, low, high)
    ensures v != "" && FieldChars(v)
  {
    JoinSplit(v, ',');
    var tokens := SplitOn(v, ',');
    forall t | t in tokens ensures FieldChars(t) {
      var i := ItemSpelled(t, low, high);
      ItemAccepted(i, low, high);
    }
    JoinedChars(tokens);
  }

  lemma {:induction false} JoinedChars(parts: seq<string>)
    requires forall p :: p in parts ==> FieldChars(p)
    ensures FieldChars(JoinWith(parts, ','))
  {
    if parts != [] {
      assert parts[0] in parts;
      JoinedChars(parts[1..]);
    }
  }

  /** A printed number in range is a valid field. */
  lemma NumberIsField(n: nat, low: nat, high: nat)
    requires low <= n <= high
    ensures ValidField(Digits(n), low, high)
  {
    DigitsRead(n);
    assert forall c :: c in Digits(n) ==> IsDigit(c);
    SplitPrefix(Digits(n), "", ',');
  }
}
