/** The Go string operations the operator relies on: strings.Split, strings.Join and decimal printing.
    A string is a sequence of ASCII characters. */
module Text {

  // ---------- strings.Split and strings.Join ----------

  function Split(s: string, sep: char): (parts: seq<string>)
    ensures |parts| >= 1
  {
    if s == "" then [""]
    else
      var rest := Split(s[1..], sep);
      if s[0] == sep then [""] + rest else [[s[0]] + rest[0]] + rest[1..]
  }

  function Join(parts: seq<string>, sep: char): string {
    if parts == [] then ""
    else if |parts| == 1 then parts[0]
    else parts[0] + [sep] + Join(parts[1..], sep)
  }

  function Count(s: string, c: char): nat {
    if s == "" then 0 else (if s[0] == c then 1 else 0) + Count(s[1..], c)
  }

  /** Position of the first `c`, or the length when there is none. */
  function IndexOf(s: string, c: char): (i: nat)
    ensures i <= |s| && c !in s[..i]
    ensures i < |s| ==> s[i] == c
    ensures i == |s| <==> c !in s
  {
    if s == "" then 0
    else if s[0] == c then 0
    else
      assert forall k :: 0 <= k <= |s| - 1 ==> s[..k + 1] == [s[0]] + s[1..][..k];
      1 + IndexOf(s[1..], c)
  }

  lemma {:induction false} JoinSplit(s: string, sep: char)
    ensures Join(Split(s, sep), sep) == s
  {
    if s != "" {
      var rest := Split(s[1..], sep);
      JoinSplit(s[1..], sep);
      if s[0] == sep {
        assert ([""] + rest)[1..] == rest;
      } else if |rest| > 1 {
        assert ([[s[0]] + rest[0]] + rest[1..])[1..] == rest[1..];
      }
    }
  }

  lemma {:induction false} SplitWithout(s: string, sep: char)
    requires sep !in s
    ensures Split(s, sep) == [s]
  {
    if s != "" {
      SplitWithout(s[1..], sep);
      assert s[0] in s && s == [s[0]] + s[1..];
    }
  }

  lemma {:induction false} SplitAtFirst(a: string, sep: char, b: string)
    requires sep !in a
    ensures Split(a + [sep] + b, sep) == [a] + Split(b, sep)
  {
    var s := a + [sep] + b;
    if a == "" {
      assert s[1..] == b;
    } else {
      assert s[1..] == a[1..] + [sep] + b;
      SplitAtFirst(a[1..], sep, b);
      assert a[0] in a && a == [a[0]] + a[1..];
      assert ([a[1..]] + Split(b, sep))[1..] == Split(b, sep);
    }
  }

  lemma {:induction false} SplitLength(s: string, sep: char)
    ensures |Split(s, sep)| == Count(s, sep) + 1
  {
    if s != "" { SplitLength(s[1..], sep); }
  }

  lemma {:induction false} CountZero(s: string, c: char)
    ensures Count(s, c) == 0 <==> c !in s
  {
    if s != "" {
      CountZero(s[1..], c);
      assert s == [s[0]] + s[1..];
    }
  }

  lemma {:induction false} CountConcat(a: string, b: string, c: char)
    ensures Count(a + b, c) == Count(a, c) + Count(b, c)
  {
    if a == "" {
      assert a + b == b;
    } else {
      assert (a + b)[1..] == a[1..] + b;
      CountConcat(a[1..], b, c);
    }
  }

  /** A string around its first separator. */
  lemma CutAtFirst(s: string, c: char)
    requires c in s
    ensures s == s[..IndexOf(s, c)] + [c] + s[IndexOf(s, c) + 1..]
  {
  }

  // ---------- Decimal numbers ----------

  const DIGITS: string := "0123456789"

  predicate AllDigits(s: string) {
    forall i :: 0 <= i < |s| ==> s[i] in DIGITS
  }

  /** Decimal digits of `n`, as many as needed and at least `width`. */
  function Decimal(n: nat, width: nat): (s: string)
    ensures |s| >= width
    ensures AllDigits(s)
    decreases n, width
  {
    if n == 0 && width == 0 then ""
    else Decimal(n / 10, if width == 0 then 0 else width - 1) + [DIGITS[n % 10]]
  }

  function DigitValue(c: char): (d: nat)
    requires c in DIGITS
    ensures d < 10 && DIGITS[d] == c
  {
    (c as int) - ('0' as int)
  }

  /** The number a string of decimal digits stands for. */
  function Numeral(s: string): nat
    requires AllDigits(s)
  {
    if s == "" then 0 else 10 * Numeral(s[..|s| - 1]) + DigitValue(s[|s| - 1])
  }

  lemma {:induction false} NumeralDecimal(n: nat, width: nat)
    ensures Numeral(Decimal(n, width)) == n
    decreases n, width
  {
    if !(n == 0 && width == 0) {
      var w := if width == 0 then 0 else width - 1;
      NumeralDecimal(n / 10, w);
      var s := Decimal(n, width);
      assert s[..|s| - 1] == Decimal(n / 10, w);
      assert DigitValue(s[|s| - 1]) == n % 10;
    }
  }

  function Power10(k: nat): (p: nat)
    ensures p > 0
  {
    if k == 0 then 1 else 10 * Power10(k - 1)
  }

  /** Zero padding gives exactly the width when the number fits in it. */
  lemma {:induction false} DecimalWidth(n: nat, width: nat, limit: nat)
    requires limit == Power10(width) && n < limit
    ensures |Decimal(n, width)| == width
    decreases width
  {
    if width > 0 { DecimalWidth(n / 10, width - 1, limit / 10); }
  }

  /** fmt.Sprintf("%d", n) for a natural number. */
  function Itoa(n: nat): string {
    Decimal(n, 1)
  }
}
