/** Strings: decimal numerals, splitting and joining. */
module Text {
  function Digit(n: nat): char
    requires n < 10
  {
    "0123456789"[n]
  }

  /** The decimal numeral of a natural number. */
  function Itoa(n: nat): (s: string)
    ensures s != ""
  {
    if n < 10 then [Digit(n)] else Itoa(n / 10) + [Digit(n % 10)]
  }

  predicate HasPrefix(s: string, prefix: string) {
    prefix <= s
  }

  /** The order of strings, by characters. */
  predicate Less(a: string, b: string) {
    if b == "" then false
    else if a == "" then true
    else if a[0] != b[0] then a[0] < b[0]
    else Less(a[1..], b[1..])
  }

  lemma {:induction false} LessTotal(a: string, b: string)
    ensures a != b ==> Less(a, b) || Less(b, a)
    ensures !(Less(a, b) && Less(b, a)) && !Less(a, a)
  {
    if a != "" && b != "" {
      LessTotal(a[1..], b[1..]);
      assert a == [a[0]] + a[1..] && b == [b[0]] + b[1..];
    }
    if a != "" {
      LessTotal(a[1..], a[1..]);
    }
  }

  lemma {:induction false} LessTrans(a: string, b: string, c: string)
    requires Less(a, b) && Less(b, c)
    ensures Less(a, c)
  {
    if a != "" && a[0] == b[0] && b[0] == c[0] {
      LessTrans(a[1..], b[1..], c[1..]);
    }
  }

  // Splitting at a character.

  /** What precedes the first occurrence of a character. */
  function Before(s: string, sep: char): (b: string)
    ensures sep in s ==> |b| < |s| && b == s[..|b|] && s[|b|] == sep
    ensures sep !in b
  {
    if s == "" || s[0] == sep then "" else [s[0]] + Before(s[1..], sep)
  }

  function Split(s: string, sep: char): (parts: seq<string>)
    ensures parts != []
    decreases |s|
  {
    if sep !in s then [s] else [Before(s, sep)] + Split(s[|Before(s, sep)| + 1..], sep)
  }

  lemma {:induction false} BeforeConcat(a: string, b: string, sep: char)
    requires sep !in a
    ensures Before(a + [sep] + b, sep) == a
  {
    if a != "" {
      BeforeConcat(a[1..], b, sep);
      assert (a + [sep] + b)[1..] == a[1..] + [sep] + b;
    }
  }

  lemma SplitConcat(a: string, b: string, sep: char)
    requires sep !in a
    ensures Split(a + [sep] + b, sep) == [a] + Split(b, sep)
  {
    var s := a + [sep] + b;
    BeforeConcat(a, b, sep);
    assert s[|a|] == sep && s[|a| + 1..] == b;
  }

  lemma SplitWhole(s: string, sep: char)
    requires sep !in s
    ensures Split(s, sep) == [s]
  {
  }

  lemma LinesTail(lines: seq<string>, head: string, rest: seq<string>)
    requires lines + [""] == [head] + rest && rest != []
    ensures lines != [] && lines[0] == head && lines[1..] + [""] == rest
  {
    assert |lines| == |rest|;
    assert (lines + [""])[0] == head;
    assert (lines + [""])[1..] == rest;
  }

  /** Adding a line to a text of whole lines. */
  lemma {:induction false} SplitSnoc(text: string, lines: seq<string>, line: string, sep: char)
    requires Split(text, sep) == lines + [""] && sep !in line
    ensures Split(text + line + [sep], sep) == lines + [line] + [""]
    decreases |lines|
  {
    hide Split, Before;
    if sep !in text {
      SplitWhole(text, sep);
      SplitWhole("", sep);
      assert (lines + [""])[0] == text && |lines| == 0;
      SplitConcat(line, "", sep);
      assert text + line + [sep] == line + [sep] + "";
    } else {
      var head := Before(text, sep);
      var rest := text[|head| + 1..];
      assert text == head + [sep] + rest;
      SplitConcat(head, rest, sep);
      LinesTail(lines, head, Split(rest, sep));
      SplitSnoc(rest, lines[1..], line, sep);
      SplitConcat(head, rest + line + [sep], sep);
      assert text + line + [sep] == head + [sep] + (rest + line + [sep]);
      assert [head] + (lines[1..] + [line] + [""]) == lines + [line] + [""];
    }
  }

  function Join(parts: seq<string>, sep: char): string {
    if parts == [] then "" else if |parts| == 1 then parts[0] else parts[0] + [sep] + Join(parts[1..], sep)
  }

  /** Splitting undoes joining, for any parts but none at all. */
  lemma {:induction false} SplitJoin(parts: seq<string>, sep: char)
    requires parts != [] && forall i :: 0 <= i < |parts| ==> sep !in parts[i]
    ensures Split(Join(parts, sep), sep) == parts
  {
    hide Split;
    if |parts| == 1 {
      SplitWhole(parts[0], sep);
    } else {
      SplitJoin(parts[1..], sep);
      SplitConcat(parts[0], Join(parts[1..], sep), sep);
    }
  }

  lemma {:induction false} JoinAvoids(parts: seq<string>, sep: char, c: char)
    requires c != sep && forall i :: 0 <= i < |parts| ==> c !in parts[i]
    ensures c !in Join(parts, sep)
  {
    if |parts| > 1 {
      JoinAvoids(parts[1..], sep, c);
    }
  }

  // Searching.

  predicate OccursAt(s: string, pattern: string, i: int) {
    0 <= i && i + |pattern| <= |s| && s[i..i + |pattern|] == pattern
  }

  /** The first place where a pattern occurs, or -1. */
  function IndexOf(s: string, pattern: string): (i: int)
    ensures i == -1 || OccursAt(s, pattern, i)
  {
    if pattern <= s then 0
    else if s == "" then -1
    else
      var i := IndexOf(s[1..], pattern);
      assert i >= 0 ==> s[i + 1..i + 1 + |pattern|] == s[1..][i..i + |pattern|];
      if i < 0 then -1 else i + 1
  }

  /** A pattern is found behind a text without its first character. */
  lemma {:induction false} IndexBehind(a: string, pattern: string, b: string)
    requires pattern != "" && pattern[0] !in a
    ensures IndexOf(a + pattern + b, pattern) == |a|
  {
    var s := a + pattern + b;
    if a == "" {
      assert pattern <= s;
    } else {
      assert s[0] == a[0] && s[1..] == a[1..] + pattern + b;
      IndexBehind(a[1..], pattern, b);
    }
  }
}
