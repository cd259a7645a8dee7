/** Facts about strings glued together with separators, and decimal numerals. */
module Text {

  /** Where the first occurrence of a separator cuts a string is determined by the string. */
  lemma {:induction false} FirstCut(sep: char, a: string, b: string, c: string, d: string)
    requires sep !in a && sep !in c
    requires a + [sep] + b == c + [sep] + d
    ensures a == c && b == d
  {
    var s := a + [sep] + b;
    assert s[|a|] == sep && s[|c|] == sep;
    assert |a| == |c|;
    assert a == s[..|a|] && c == s[..|c|];
    assert b == s[|a| + 1..] && d == s[|c| + 1..];
  }

  /** And so is the last one. */
  lemma {:induction false} LastCut(sep: char, a: string, b: string, c: string, d: string)
    requires sep !in b && sep !in d
    requires a + [sep] + b == c + [sep] + d
    ensures a == c && b == d
  {
    var s := a + [sep] + b;
    assert |s| == |c| + 1 + |d|;
    assert s[|a|] == sep && s[|c|] == sep;
    assert |a| == |c|;
    assert a == s[..|a|] && c == s[..|c|];
    assert b == s[|a| + 1..] && d == s[|c| + 1..];
  }

  /** How often a character occurs. */
  function Occurrences(ch: char, s: string): nat {
    if s == "" then 0 else (if s[0] == ch then 1 else 0) + Occurrences(ch, s[1..])
  }

  lemma {:induction false} OccurrencesAppend(ch: char, a: string, b: string)
    ensures Occurrences(ch, a + b) == Occurrences(ch, a) + Occurrences(ch, b)
  {
    if a == "" {
      assert a + b == b;
    } else {
      OccurrencesAppend(ch, a[1..], b);
      assert (a + b)[1..] == a[1..] + b;
    }
  }

  lemma {:induction false} NoOccurrence(ch: char, s: string)
    ensures Occurrences(ch, s) == 0 <==> ch !in s
  {
    if s != "" {
      NoOccurrence(ch, s[1..]);
      assert s == [s[0]] + s[1..];
    }
  }

  /** The position of some occurrence of a character. */
  lemma SplitAt(ch: char, s: string) returns (before: string, after: string)
    requires ch in s
    ensures s == before + [ch] + after
  {
    var i :| 0 <= i < |s| && s[i] == ch;
    before, after := s[..i], s[i + 1..];
  }

  function Digit(d: nat): char
    requires d < 10
  {
    ['0', '1', '2', '3', '4', '5', '6', '7', '8', '9'][d]
  }

  /** The decimal numeral of a number, as `to_string` prints it. */
  function Decimal(n: nat): (s: string)
    ensures s != ""
  {
    if n < 10 then [Digit(n)] else Decimal(n / 10) + [Digit(n % 10)]
  }

  lemma {:induction false} DecimalInjective(a: nat, b: nat)
    requires Decimal(a) == Decimal(b)
    ensures a == b
  {
    var s := Decimal(a);
    assert s[|s| - 1] == Digit(a % 10) == Digit(b % 10);
    assert a % 10 == b % 10;
    if a >= 10 && b >= 10 {
      assert Decimal(a / 10) == s[..|s| - 1] == Decimal(b / 10);
      DecimalInjective(a / 10, b / 10);
    } else {
      DecimalLength(a);
      DecimalLength(b);
    }
  }

  predicate AllDigits(s: string) {
    forall i | 0 <= i < |s| :: '0' <= s[i] <= '9'
  }

  /** The number a numeral stands for: ten times the number before the last digit, plus that digit. */
  function NumberOf(s: string): nat
    requires AllDigits(s)
  {
    if s == "" then 0 else 10 * NumberOf(s[..|s| - 1]) + (s[|s| - 1] - '0') as nat
  }

  /** Reading a printed number gives the number back, and only zero is printed with a leading zero. */
  lemma {:induction false} DecimalRoundTrip(n: nat)
    ensures AllDigits(Decimal(n)) && NumberOf(Decimal(n)) == n
    ensures Decimal(n)[0] == '0' <==> n == 0
  {
    if n >= 10 {
      DecimalRoundTrip(n / 10);
      assert Decimal(n)[..|Decimal(n)| - 1] == Decimal(n / 10);
    }
  }

  lemma DecimalLength(n: nat)
    ensures |Decimal(n)| == 1 <==> n < 10
  {
  }

  lemma {:induction false} DecimalHasOnlyDigits(n: nat)
    ensures forall ch | ch in Decimal(n) :: '0' <= ch <= '9'
  {
    if n >= 10 {
      DecimalHasOnlyDigits(n / 10);
    }
  }
}
