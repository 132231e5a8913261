/**
 When the names of sets and chains differ. A digest that does not confuse the texts in use gives
 different names to different texts; the texts of a policy's rules can be taken apart again, except
 that the numerals of a rule and of a port run into each other.
 */
module NameTexts {
  import opened Text
  import opened Naming

  predicate IsDigit(c: char) {
    '0' <= c <= '9'
  }

  predicate IsDigits(s: string) {
    forall i :: 0 <= i < |s| ==> IsDigit(s[i])
  }

  lemma {:induction false} ItoaDigits(n: nat)
    ensures IsDigits(Itoa(n))
  {
    if n >= 10 {
      ItoaDigits(n / 10);
    }
  }

  lemma {:induction false} ItoaInjective(a: nat, b: nat)
    requires Itoa(a) == Itoa(b)
    ensures a == b
  {
    if a >= 10 && b >= 10 {
      assert Itoa(a)[..|Itoa(a)| - 1] == Itoa(a / 10) && Itoa(b)[..|Itoa(b)| - 1] == Itoa(b / 10);
      assert Itoa(a)[|Itoa(a)| - 1] == Digit(a % 10) && Itoa(b)[|Itoa(b)| - 1] == Digit(b % 10);
      ItoaInjective(a / 10, b / 10);
    }
  }

  /** Equal texts with endings of one length have equal endings and equal beginnings. */
  lemma SameEnds(a: string, x: string, b: string, y: string)
    requires a + x == b + y && |x| == |y|
    ensures a == b && x == y
  {
    assert |a| == |b| && (a + x)[..|a|] == a && (b + y)[..|b|] == b && (a + x)[|a|..] == x && (b + y)[|b|..] == y;
  }

  lemma LastOther(s: string, a: string, x: string)
    requires s == a + x && IsDigits(x) && a != "" && !IsDigit(a[|a| - 1])
    ensures !IsDigit(s[|a| - 1]) && forall i :: |a| <= i < |s| ==> IsDigit(s[i])
  {
  }

  /** The digits at the end of a text can be told from what comes before, if that does not end in one. */
  lemma TrailingDigits(a: string, x: string, b: string, y: string)
    requires a + x == b + y && IsDigits(x) && IsDigits(y)
    requires a != "" && b != "" && !IsDigit(a[|a| - 1]) && !IsDigit(b[|b| - 1])
    ensures a == b && x == y
  {
    var s := a + x;
    LastOther(s, a, x);
    LastOther(s, b, y);
    hide IsDigit;
    assert |a| == |b|;
    SameEnds(a, x, b, y);
  }

  /** What a rule adds to the text of its policy: its direction, some digits, and what its set is for. */
  datatype Tail = Tail(word: string, digits: string, use: string)

  const WORDS := {"ingressrule", "egressrule"}
  const USES := {"pod", "ipblock", "namedport"}

  predicate IsTail(t: Tail) {
    t.word in WORDS && IsDigits(t.digits) && t.use in USES
  }

  function WithTail(base: string, t: Tail): string {
    base + t.word + t.digits + t.use
  }

  lemma UseLast(x: string, use: string)
    requires use in USES
    ensures (x + use)[|x + use| - 1] == (match |use| case 3 => 'd' case 7 => 'k' case _ => 't')
  {
  }

  lemma SameUse(x: string, use: string, x': string, use': string)
    requires use in USES && use' in USES && x + use == x' + use'
    ensures x == x' && use == use'
  {
    UseLast(x, use);
    UseLast(x', use');
    SameEnds(x, use, x', use');
  }

  lemma SameWord(x: string, word: string, x': string, word': string)
    requires word in WORDS && word' in WORDS && x + word == x' + word'
    ensures x == x' && word == word'
  {
    assert (x + word)[|x + word| - 10] == if |word| == 11 then 'n' else 'e';
    assert (x' + word')[|x' + word'| - 10] == if |word'| == 11 then 'n' else 'e';
    SameEnds(x, word, x', word');
  }

  /** Texts with such an ending are equal only if they are the same part by part. */
  lemma SameTail(base: string, t: Tail, base': string, t': Tail)
    requires IsTail(t) && IsTail(t') && WithTail(base, t) == WithTail(base', t')
    ensures base == base' && t == t'
  {
    SameUse(base + t.word + t.digits, t.use, base' + t'.word + t'.digits, t'.use);
    assert (base + t.word)[|base + t.word| - 1] == 'e' && (base' + t'.word)[|base' + t'.word| - 1] == 'e';
    TrailingDigits(base + t.word, t.digits, base' + t'.word, t'.digits);
    SameWord(base, t.word, base', t'.word);
  }

  lemma TailGrows(base: string, t: Tail)
    requires IsTail(t)
    ensures WithTail(base, t) != base
  {
    assert |t.word| > 0;
  }

  /** Numerals run together tell the rule if rule numbers have one digit. */
  lemma OneDigitRules(i: nat, j: nat, i': nat, j': nat)
    requires i < 10 && i' < 10 && Itoa(i) + Itoa(j) == Itoa(i') + Itoa(j')
    ensures i == i' && j == j'
  {
    assert |Itoa(i)| == 1 && |Itoa(i')| == 1;
    assert Itoa(i) == (Itoa(i) + Itoa(j))[..1] && Itoa(i') == (Itoa(i') + Itoa(j'))[..1];
    assert Itoa(j) == (Itoa(i) + Itoa(j))[1..] && Itoa(j') == (Itoa(i') + Itoa(j'))[1..];
    ItoaInjective(i, i');
    ItoaInjective(j, j');
  }

  /** The digest tells these texts apart. */
  ghost predicate NoCollision(d: Digest, texts: iset<string>) {
    forall s, t :: s in texts && t in texts ==> !CollidesOn(d, s, t)
  }

  /** A name is a prefix and a digest; equal ones come from one prefix and one text. */
  lemma SameName(d: Digest, texts: iset<string>, prefix: string, s: string, prefix': string, t: string)
    requires NoCollision(d, texts) && s in texts && t in texts
    requires prefix in {SOURCE_PREFIX, DESTINATION_PREFIX} && prefix' in {SOURCE_PREFIX, DESTINATION_PREFIX}
    ensures prefix + d(s) == prefix' + d(t) <==> prefix == prefix' && s == t
  {
    if prefix + d(s) == prefix' + d(t) {
      assert (prefix + d(s))[..9] == prefix && (prefix' + d(t))[..9] == prefix';
      assert (prefix + d(s))[9..] == d(s) && (prefix' + d(t))[9..] == d(t);
      assert !CollidesOn(d, s, t);
    }
  }
}
