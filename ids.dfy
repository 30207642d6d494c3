/** Identifiers. `generateId()` draws random, practically unique strings
    that are not made of digits alone; the model draws them from a counter,
    so that uniqueness is a theorem: the id of the n-th draw is "id"
    followed by the decimal rendering of n. Distinct draws give distinct
    ids, and no id is an array index, so objects keyed by ids list their
    keys in creation order. */
module Ids {
  import opened ObjectKeys

  type Id = string

  function Digit(d: nat): char
    requires d < 10
  {
    "0123456789"[d]
  }

  /** The decimal digits of `n`, most significant first. */
  function Decimal(n: nat): (s: string)
    ensures |s| >= 1
    ensures (|s| == 1) == (n < 10)
    decreases n
  {
    if n < 10 then [Digit(n)] else Decimal(n / 10) + [Digit(n % 10)]
  }

  /** The id handed out by the n-th call of `generateId`. */
  function IdOf(n: nat): Id
  {
    "id" + Decimal(n)
  }

  lemma DigitInjective(a: nat, b: nat)
    requires a < 10 && b < 10 && Digit(a) == Digit(b)
    ensures a == b
  {
  }

  /** Distinct numbers have distinct decimal renderings. */
  lemma {:induction false} DecimalInjective(a: nat, b: nat)
    requires Decimal(a) == Decimal(b)
    ensures a == b
    decreases a
  {
    var sa, sb := Decimal(a), Decimal(b);
    if a < 10 {
      assert |sb| == 1;
      DigitInjective(a, b);
    } else {
      assert |sb| == |sa| && |sb| > 1;
      assert b >= 10;
      assert sa[|sa| - 1] == Digit(a % 10) && sb[|sb| - 1] == Digit(b % 10);
      DigitInjective(a % 10, b % 10);
      assert sa[..|sa| - 1] == Decimal(a / 10);
      assert sb[..|sb| - 1] == Decimal(b / 10);
      DecimalInjective(a / 10, b / 10);
    }
  }

  /** Distinct draws of the id generator never collide. */
  lemma IdOfInjective(a: nat, b: nat)
    requires IdOf(a) == IdOf(b)
    ensures a == b
  {
    assert IdOf(a)[2..] == Decimal(a) && IdOf(b)[2..] == Decimal(b);
    DecimalInjective(a, b);
  }

  /** No id is an array index: it does not start with a digit. */
  lemma IdIsNotArrayIndex(n: nat)
    ensures !IsArrayIndex(IdOf(n))
  {
    assert !IsDigit(IdOf(n)[0]);
  }
}
