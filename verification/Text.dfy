/** Strings as the program uses them: splitting, stripping, lower-casing and `sorted`. */
module Text {

  /** `s.split(c)` for a one-character separator: never empty, `"".split(c) == [""]`. */
  function SplitOn(s: string, c: char): (parts: seq<string>)
    ensures |parts| >= 1
  {
    if s == "" then [""]
    else
      var rest := SplitOn(s[1..], c);
      if s[0] == c then [""] + rest else [[s[0]] + rest[0]] + rest[1..]
  }

  /** `c.join(parts)`. */
  function JoinWith(parts: seq<string>, c: char): string {
    if parts == [] then ""
    else if |parts| == 1 then parts[0]
    else parts[0] + [c] + JoinWith(parts[1..], c)
  }

  lemma {:induction false} SplitPrefix(head: string, tail: string, c: char)
    requires c !in head
    ensures SplitOn(head, c) == [head]
    ensures SplitOn(head + [c] + tail, c) == [head] + SplitOn(tail, c)
  {
    if head == "" {
      assert head + [c] + tail == [c] + tail;
    } else {
      var whole := head + [c] + tail;
      assert whole[1..] == head[1..] + [c] + tail;
      SplitPrefix(head[1..], tail, c);
      assert [head[0]] + head[1..] == head;
    }
  }

  lemma SplitCons(x: char, t: string, c: char)
    ensures SplitOn([x] + t, c) ==
      if x == c then [""] + SplitOn(t, c) else [[x] + SplitOn(t, c)[0]] + SplitOn(t, c)[1..]
  {
    assert ([x] + t)[1..] == t;
  }

  lemma Glued(x: char, parts: seq<string>, more: seq<string>)
    requires parts != []
    ensures [[x] + (parts + more)[0]] + (parts + more)[1..] == [[x] + parts[0]] + parts[1..] + more
  {
    assert (parts + more)[1..] == parts[1..] + more;
  }

  /** A separator splits a text into the pieces of what is before it and those of what follows. */
  lemma {:induction false} SplitAround(a: string, b: string, c: char)
    ensures SplitOn(a + [c] + b, c) == SplitOn(a, c) + SplitOn(b, c)
  {
    if a == "" {
      assert a + [c] + b == [c] + b;
      SplitCons(c, b, c);
    } else {
      var x, t := a[0], a[1..];
      assert a == [x] + t && a + [c] + b == [x] + (t + [c] + b);
      SplitAround(t, b, c);
      SplitCons(x, t, c);
      SplitCons(x, t + [c] + b, c);
      Glued(x, SplitOn(t, c), SplitOn(b, c));
    }
  }

  /** Splitting undoes joining when no piece holds the separator. */
  lemma {:induction false} SplitJoin(parts: seq<string>, c: char)
    requires parts != []
    requires forall p :: p in parts ==> c !in p
    ensures SplitOn(JoinWith(parts, c), c) == parts
  {
    var head, tail := parts[0], parts[1..];
    assert parts == [head] + tail;
    SplitPrefix(head, JoinWith(tail, c), c);
    if tail != [] {
      SplitJoin(tail, c);
      assert JoinWith(parts, c) == head + [c] + JoinWith(tail, c);
    }
  }

  /** Joining undoes splitting, and no piece holds the separator. */
  lemma {:induction false} JoinSplit(s: string, c: char)
    ensures JoinWith(SplitOn(s, c), c) == s
    ensures forall p :: p in SplitOn(s, c) ==> c !in p
  {
    if s != "" {
      JoinSplit(s[1..], c);
      var rest := SplitOn(s[1..], c);
      if s[0] == c {
        assert ([""] + rest)[1..] == rest;
      } else {
        var head := [s[0]] + rest[0];
        assert ([head] + rest[1..])[1..] == rest[1..];
        assert rest[0] in rest;
        forall p | p in [head] + rest[1..] ensures c !in p {
          if p != head { assert p in rest; }
        }
      }
    }
  }

  /** ASCII white space, as `str.strip` and `str.split` know it. */
  predicate IsSpace(c: char) {
    c == ' ' || '\t' <= c <= '\r' || 28 <= c as int <= 31
  }

  /** The length of the longest start of `s` made of such characters. */
  function Lead(s: string, p: char -> bool): (n: nat)
    ensures n <= |s| && (forall i :: 0 <= i < n ==> p(s[i])) && (n < |s| ==> !p(s[n]))
  {
    if s == "" || !p(s[0]) then 0 else 1 + Lead(s[1..], p)
  }

  lemma {:induction false} LeadIs(a: string, b: string, p: char -> bool)
    requires forall c :: c in a ==> p(c)
    requires b == "" || !p(b[0])
    ensures Lead(a + b, p) == |a|
  {
    if a == "" {
      assert a + b == b;
    } else {
      assert (a + b)[1..] == a[1..] + b;
      LeadIs(a[1..], b, p);
    }
  }

  function StripLeft(s: string): string {
    if s != "" && IsSpace(s[0]) then StripLeft(s[1..]) else s
  }

  function StripRight(s: string): string {
    if s != "" && IsSpace(s[|s| - 1]) then StripRight(s[..|s| - 1]) else s
  }

  /** `s.strip()` on ASCII white space. */
  function Strip(s: string): string {
    StripRight(StripLeft(s))
  }

  function LowerChar(c: char): char {
    if 'A' <= c <= 'Z' then c - 'A' + 'a' else c
  }

  /** `s.lower()` on ASCII letters. */
  function Lower(s: string): string {
    seq(|s|, i requires 0 <= i < |s| => LowerChar(s[i]))
  }

  /** Lower-casing moves the letters A to Z by 32 and leaves every other character. */
  lemma LowerIs(s: string, i: nat)
    requires i < |s|
    ensures |Lower(s)| == |s|
    ensures Lower(s)[i] as int == s[i] as int + (if 65 <= s[i] as int < 65 + 26 then 32 else 0)
  {}

  /** No white space at either end. */
  predicate Stripped(s: string) {
    s != "" ==> !IsSpace(s[0]) && !IsSpace(s[|s| - 1])
  }

  lemma {:induction false} StripLeftClears(s: string)
    ensures var r := StripLeft(s); r != "" ==> !IsSpace(r[0])
  {
    if s != "" && IsSpace(s[0]) { StripLeftClears(s[1..]); }
  }

  lemma {:induction false} StripRightClears(s: string)
    ensures var r := StripRight(s); r <= s && (r != "" ==> !IsSpace(r[|r| - 1]))
  {
    if s != "" && IsSpace(s[|s| - 1]) { StripRightClears(s[..|s| - 1]); }
  }

  /** Stripping leaves nothing to strip, and leaves a stripped string alone. */
  lemma StripIsStripped(s: string)
    ensures Stripped(Strip(s))
    ensures Stripped(s) ==> Strip(s) == s
  {
    StripLeftClears(s);
    StripRightClears(StripLeft(s));
  }

  /** Tab to carriage return, the four separators and the blank, by their codes. */
  predicate Blank(c: char) {
    c as int in {9, 10, 11, 12, 13, 28, 29, 30, 31, 32}
  }

  lemma BlankIsSpace(c: char)
    ensures Blank(c) <==> IsSpace(c)
  {}

  /** What stands between blanks and neither begins nor ends with one is what stripping leaves. */
  lemma Trimmed(before: string, s: string, after: string)
    requires forall c :: c in before + after ==> Blank(c)
    requires s != "" ==> !Blank(s[0]) && !Blank(s[|s| - 1])
    ensures Strip(before + s + after) == s
  {
    if s == "" {
      TrimmedLeft(before + after, "");
      assert before + s + after == before + after + "";
    } else {
      BlankIsSpace(s[0]);
      TrimmedLeft(before, s + after);
      assert before + s + after == before + (s + after);
      TrimmedRight(s, after);
    }
  }

  lemma {:induction false} TrimmedLeft(before: string, s: string)
    requires forall c :: c in before ==> Blank(c)
    requires s != "" ==> !IsSpace(s[0])
    ensures StripLeft(before + s) == s
  {
    if before == "" {
      assert before + s == s;
    } else {
      BlankIsSpace(before[0]);
      assert (before + s)[1..] == before[1..] + s;
      TrimmedLeft(before[1..], s);
    }
  }

  lemma {:induction false} TrimmedRight(s: string, after: string)
    requires forall c :: c in after ==> Blank(c)
    requires s != "" && !Blank(s[|s| - 1])
    ensures StripRight(s + after) == s
  {
    if after == "" {
      BlankIsSpace(s[|s| - 1]);
      assert s + after == s;
    } else {
      var k := |after| - 1;
      BlankIsSpace(after[k]);
      assert (s + after)[..|s| + k] == s + after[..k];
      TrimmedRight(s, after[..k]);
    }
  }

  /** Group names are compared as `strip().lower()`; doing it twice changes nothing. */
  lemma NormalizedTwice(s: string)
    ensures Lower(Strip(Lower(Strip(s)))) == Lower(Strip(s))
  {
    StripIsStripped(s);
    assert Stripped(Lower(Strip(s)));
    StripIsStripped(Lower(Strip(s)));
  }

  /** Python's `<` on strings. */
  predicate StrLt(a: string, b: string) {
    b != "" && (a == "" || a[0] < b[0] || (a[0] == b[0] && StrLt(a[1..], b[1..])))
  }

  lemma {:induction false} StrTotal(a: string, b: string)
    ensures a == b || StrLt(a, b) || StrLt(b, a)
    ensures !(StrLt(a, b) && StrLt(b, a)) && !StrLt(a, a)
  {
    if a != "" && b != "" {
      StrTotal(a[1..], b[1..]);
      StrTotal(a[1..], a[1..]);
      if a[0] == b[0] && a[1..] == b[1..] { assert a == [a[0]] + a[1..] == b; }
    } else if a != "" {
      StrTotal(a[1..], a[1..]);
    }
  }

  lemma {:induction false} StrTransitive(a: string, b: string, c: string)
    requires StrLt(a, b) && StrLt(b, c)
    ensures StrLt(a, c)
  {
    if a != "" && a[0] == b[0] && b[0] == c[0] { StrTransitive(a[1..], b[1..], c[1..]); }
  }

  /** A proper prefix sorts before the string it starts. */
  lemma {:induction false} PrefixSortsFirst(a: string, rest: string)
    requires rest != ""
    ensures StrLt(a, a + rest)
  {
    if a != "" {
      assert (a + rest)[1..] == a[1..] + rest;
      PrefixSortsFirst(a[1..], rest);
    }
  }

  predicate IsLeast(m: string, s: set<string>) {
    m in s && forall x :: x in s ==> x == m || StrLt(m, x)
  }

  lemma {:induction false} LeastExists(s: set<string>)
    requires s != {}
    ensures exists m :: IsLeast(m, s)
    ensures forall a, b :: IsLeast(a, s) && IsLeast(b, s) ==> a == b
    decreases |s|
  {
    forall a, b | IsLeast(a, s) && IsLeast(b, s) ensures a == b { StrTotal(a, b); }
    var x :| x in s;
    if s == {x} {
      assert IsLeast(x, s);
    } else {
      assert s - {x} != {};
      LeastExists(s - {x});
      var m :| IsLeast(m, s - {x});
      StrTotal(x, m);
      if StrLt(x, m) {
        forall y | y in s ensures y == x || StrLt(x, y) {
          if y != x && y != m { StrTransitive(x, m, y); }
        }
        assert IsLeast(x, s);
      } else {
        assert IsLeast(m, s);
      }
    }
  }

  /** `sorted(s)` of a set of strings. */
  function SortedSeq(s: set<string>): (r: seq<string>)
    ensures forall x :: x in r <==> x in s
    ensures forall i, j :: 0 <= i < j < |r| ==> StrLt(r[i], r[j])
    decreases |s|
  {
    if s == {} then []
    else
      LeastExists(s);
      var m :| IsLeast(m, s);
      [m] + SortedSeq(s - {m})
  }
}
