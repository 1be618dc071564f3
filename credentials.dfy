/** The per-machine password: a seed of 12345 plus the code point of every
    character of the machine id, written in decimal after "PWD". */
module Credentials {

  /** The value the checksum starts from. */
  const Seed: nat := 12345

  /** The text every password starts with. */
  const Prefix: string := "PWD"

  /** Sum of the code points (Python's `ord`) of the characters of `m`. */
  function OrdSum(m: string): nat
  {
    if m == [] then 0 else OrdSum(m[..|m| - 1]) + m[|m| - 1] as int
  }

  predicate IsDigit(c: char)
  {
    '0' <= c <= '9'
  }

  predicate AllDigits(s: string)
  {
    forall i :: 0 <= i < |s| ==> IsDigit(s[i])
  }

  /** A decimal numeral as Python writes an int: digits only, at least one,
      and no leading zero unless the numeral is "0". */
  predicate Canonical(s: string)
  {
    |s| > 0 && AllDigits(s) && (s[0] == '0' ==> |s| == 1)
  }

  function DigitChar(d: nat): (c: char)
    requires d < 10
    ensures IsDigit(c)
  {
    ('0' as int + d) as char
  }

  function DigitValue(c: char): (d: nat)
    requires IsDigit(c)
    ensures d < 10 && DigitChar(d) == c
  {
    c as int - '0' as int
  }

  /** The decimal rendering of `n`, as in the f-string `f"{n}"`. */
  function Decimal(n: nat): (s: string)
    ensures Canonical(s)
  {
    if n < 10 then [DigitChar(n)] else Decimal(n / 10) + [DigitChar(n % 10)]
  }

  /** The value of a string of decimal digits. */
  function ParseDecimal(s: string): nat
    requires AllDigits(s)
  {
    if s == [] then 0 else ParseDecimal(s[..|s| - 1]) * 10 + DigitValue(s[|s| - 1])
  }

  /** Reading back the rendering of `n` gives `n`. */
  lemma {:induction false} ParseDecimalOfDecimal(n: nat)
    ensures ParseDecimal(Decimal(n)) == n
  {
    if n >= 10 {
      var s := Decimal(n);
      assert s[..|s| - 1] == Decimal(n / 10);
      ParseDecimalOfDecimal(n / 10);
    }
  }

  /** A numeral without a leading zero is worth at least one. */
  lemma {:induction false} ParseDecimalPositive(s: string)
    requires |s| > 0 && AllDigits(s) && s[0] != '0'
    ensures ParseDecimal(s) >= 1
  {
    if |s| > 1 {
      ParseDecimalPositive(s[..|s| - 1]);
    }
  }

  /** Rendering the value of a canonical numeral gives the numeral back, so
      `Decimal` is a bijection between naturals and canonical numerals. */
  lemma {:induction false} DecimalOfParseDecimal(s: string)
    requires Canonical(s)
    ensures Decimal(ParseDecimal(s)) == s
  {
    if |s| > 1 {
      var t := s[..|s| - 1];
      ParseDecimalPositive(t);
      DecimalOfParseDecimal(t);
      assert s == t + [s[|s| - 1]];
    }
  }

  /** The password of machine `m` (generate_password). */
  function Password(m: string): (p: string)
    ensures |p| > |Prefix| && p[..|Prefix|] == Prefix && Canonical(p[|Prefix|..])
  {
    assert (Prefix + Decimal(Seed + OrdSum(m)))[|Prefix|..] == Decimal(Seed + OrdSum(m));
    Prefix + Decimal(Seed + OrdSum(m))
  }

  /** The numeric part of the password is the seed plus the code points of
      the id, so it is never below 12345. */
  lemma PasswordNumber(m: string)
    ensures ParseDecimal(Password(m)[|Prefix|..]) == Seed + OrdSum(m)
    ensures ParseDecimal(Password(m)[|Prefix|..]) >= 12345
  {
    assert Password(m)[|Prefix|..] == Decimal(Seed + OrdSum(m));
    ParseDecimalOfDecimal(Seed + OrdSum(m));
  }

  /** Two machines get the same password exactly when their code-point sums
      agree: the checksum is the only thing the password depends on. */
  lemma PasswordsAgreeIffSumsAgree(a: string, b: string)
    ensures Password(a) == Password(b) <==> OrdSum(a) == OrdSum(b)
  {
    if Password(a) == Password(b) {
      PasswordNumber(a);
      PasswordNumber(b);
    }
  }

  /** The code-point sum of a concatenation is the sum of the parts. */
  lemma {:induction false} OrdSumAppend(a: string, b: string)
    ensures OrdSum(a + b) == OrdSum(a) + OrdSum(b)
  {
    if b == [] {
      assert a + b == a;
    } else {
      var b' := b[..|b| - 1];
      assert (a + b)[..|a + b| - 1] == a + b';
      assert (a + b)[|a + b| - 1] == b[|b| - 1];
      OrdSumAppend(a, b');
    }
  }

  /** The checksum ignores order, so swapping two parts of an id leaves its
      password unchanged (the derivation is not meant to be secure). */
  lemma PasswordIgnoresOrder(a: string, b: string)
    ensures Password(a + b) == Password(b + a)
  {
    OrdSumAppend(a, b);
    OrdSumAppend(b, a);
  }

  /** generate_password: the accumulating loop over the characters of the id. */
  method GeneratePassword(m: string) returns (p: string)
    ensures p == Password(m)
  {
    var seed := Seed;
    for i := 0 to |m|
      invariant seed == Seed + OrdSum(m[..i])
    {
      assert m[..i + 1][..i] == m[..i];
      seed := seed + m[i] as int;
    }
    assert m[..|m|] == m;
    p := Prefix + Decimal(seed);
  }
}
