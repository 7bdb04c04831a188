/**
 The default player names a new Pig game hands out: "Player 1", "Player 2", ...
 A name is the word "Player", a space and the player's one-based position in
 decimal. Decimal rendering is modelled here together with its inverse, so
 that the names can be shown to be pairwise distinct.
 */
module PlayerNames {

  predicate IsDigit(c: char) {
    '0' <= c <= '9'
  }

  predicate AllDigits(s: string) {
    forall i :: 0 <= i < |s| ==> IsDigit(s[i])
  }

  /** The character of a single decimal digit. */
  function DigitChar(d: nat): (c: char)
    requires d < 10
    ensures IsDigit(c)
  {
    ('0' as int + d) as char
  }

  /** The value of a decimal digit character; the inverse of DigitChar. */
  function DigitValue(c: char): (d: nat)
    requires IsDigit(c)
    ensures d < 10 && DigitChar(d) == c
  {
    c as int - '0' as int
  }

  /** Decimal rendering of a natural number, most significant digit first,
      without leading zeros (Python's str on a non-negative int). */
  function Decimal(n: nat): (s: string)
    ensures |s| >= 1 && AllDigits(s)
    ensures s[0] == '0' ==> n == 0
    decreases n
  {
    if n < 10 then [DigitChar(n)] else Decimal(n / 10) + [DigitChar(n % 10)]
  }

  /** Reads a string of decimal digits back as a number. */
  function ParseDecimal(s: string): (n: nat)
    requires AllDigits(s)
    decreases |s|
  {
    if |s| == 0 then 0 else 10 * ParseDecimal(s[..|s| - 1]) + DigitValue(s[|s| - 1])
  }

  /** Reading a rendered number gives the number back. */
  lemma {:induction false} ParseDecimalOfDecimal(n: nat)
    ensures ParseDecimal(Decimal(n)) == n
    decreases n
  {
    if n >= 10 {
      var s := Decimal(n);
      assert s[..|s| - 1] == Decimal(n / 10);
      ParseDecimalOfDecimal(n / 10);
    }
  }

  /** Different numbers render differently. */
  lemma {:induction false} DecimalInjective(a: nat, b: nat)
    ensures Decimal(a) == Decimal(b) <==> a == b
  {
    ParseDecimalOfDecimal(a);
    ParseDecimalOfDecimal(b);
  }

  const NamePrefix: string := "Player "

  /** The name given to the player at zero-based position i: the prefix,
      then the one-based position written in decimal. */
  function PlayerName(i: nat): (name: string)
    ensures |name| > |NamePrefix| && name[..|NamePrefix|] == NamePrefix
    ensures AllDigits(name[|NamePrefix|..]) && name[|NamePrefix|] != '0'
    ensures ParseDecimal(name[|NamePrefix|..]) == i + 1
  {
    var name := NamePrefix + Decimal(i + 1);
    assert name[|NamePrefix|..] == Decimal(i + 1);
    ParseDecimalOfDecimal(i + 1);
    name
  }

  /** The default names are pairwise distinct. */
  lemma PlayerNamesDistinct(i: nat, j: nat)
    ensures PlayerName(i) == PlayerName(j) <==> i == j
  {
  }
}
