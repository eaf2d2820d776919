/** Text as the application prints and compares it: ASCII case, decimal numbers. */
module Text {
  import opened Prelude

  function Fold(c: char): char {
    if 'A' <= c <= 'Z' then (c as int + 32) as char else c
  }

  function Lower(s: string): string {
    seq(|s|, i requires 0 <= i < |s| => Fold(s[i]))
  }

  /** Two characters are one letter in either case, or the same. */
  predicate SameLetter(c: char, d: char) {
    c == d || ('A' <= c <= 'Z' && d as int == c as int + 32) || ('A' <= d <= 'Z' && c as int == d as int + 32)
  }

  lemma FoldMeans(c: char, d: char)
    ensures Fold(c) == Fold(d) <==> SameLetter(c, d)
  {
  }

  /** Texts agree in lower case exactly when they agree but for the case of letters. */
  lemma LowerMeans(s: string, t: string)
    ensures Lower(s) == Lower(t) <==> |s| == |t| && forall i :: 0 <= i < |s| ==> SameLetter(s[i], t[i])
  {
    if |s| == |t| {
      forall i | 0 <= i < |s|
        ensures Lower(s)[i] == Lower(t)[i] <==> SameLetter(s[i], t[i])
      {
        FoldMeans(s[i], t[i]);
      }
    } else {
      assert |Lower(s)| == |s| && |Lower(t)| == |t|;
    }
  }

  function DigitChar(d: nat): char
    requires d < 10
  {
    (d + '0' as int) as char
  }

  function NatText(n: nat): string {
    if n < 10 then [DigitChar(n)] else NatText(n / 10) + [DigitChar(n % 10)]
  }

  function IntText(n: int): string {
    if n < 0 then "-" + NatText(-n) else NatText(n)
  }

  function NatOf(s: string): int {
    if s == "" then 0 else 10 * NatOf(s[..|s| - 1]) + (s[|s| - 1] as int - '0' as int)
  }

  lemma {:induction false} NatTextFacts(n: nat)
    ensures NatOf(NatText(n)) == n
    ensures NatText(n) != "" && NatText(n)[0] != '-'
    ensures forall c :: c in NatText(n) ==> '0' <= c <= '9'
  {
    if n < 10 {
      assert NatText(n)[..0] == "";
    } else {
      NatTextFacts(n / 10);
      var s := NatText(n);
      assert s[..|s| - 1] == NatText(n / 10);
      assert s[|s| - 1] == DigitChar(n % 10);
      assert s[0] == NatText(n / 10)[0];
    }
  }

  /** Decimal text names its number, and has no colon. */
  lemma IntTextFacts(m: int, n: int)
    ensures ':' !in IntText(m)
    ensures IntText(m) == IntText(n) ==> m == n
  {
    NatTextFacts(Abs(m));
    NatTextFacts(Abs(n));
    assert IntText(m)[0] == '-' <==> m < 0;
    assert IntText(n)[0] == '-' <==> n < 0;
    if IntText(m) == IntText(n) {
      if m < 0 {
        assert IntText(m)[1..] == NatText(-m);
        assert IntText(n)[1..] == NatText(-n);
      }
    }
  }

  lemma PrefixCancels(p: string, x: string, y: string)
    requires p + x == p + y
    ensures x == y
  {
    assert (p + x)[|p|..] == x && (p + y)[|p|..] == y;
  }
}
