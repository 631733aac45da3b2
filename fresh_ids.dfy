/**
 * The fresh-id supplier that stands in for `str(uuid.uuid4())`: the n-th id handed out in a
 * run is the decimal rendering of n. Distinctness, which the random UUIDs give with
 * overwhelming probability, is here a theorem (IdOfInjective).
 */
module FreshIds {

  function DigitChar(d: nat): (c: char)
    requires d < 10
    ensures '0' <= c <= '9'
    ensures c as int - '0' as int == d
  {
    ('0' as int + d) as char
  }

  /** The decimal rendering of n, most significant digit first, without leading zeros. */
  function Decimal(n: nat): (s: string)
    ensures 1 <= |s|
    ensures forall i :: 0 <= i < |s| ==> '0' <= s[i] <= '9'
    ensures (|s| == 1) == (n < 10)
    decreases n
  {
    if n < 10 then [DigitChar(n)] else Decimal(n / 10) + [DigitChar(n % 10)]
  }

  /** The id handed out when n ids have been handed out before it. */
  function IdOf(n: nat): (id: string)
    ensures 1 <= |id|
  {
    Decimal(n)
  }

  /** No two counter values render to the same decimal string. */
  lemma {:induction false} DecimalInjective(a: nat, b: nat)
    requires Decimal(a) == Decimal(b)
    ensures a == b
    decreases a
  {
    if a < 10 || b < 10 {
      assert |Decimal(a)| == 1 && |Decimal(b)| == 1;
      assert Decimal(a)[0] == DigitChar(a) && Decimal(b)[0] == DigitChar(b);
    } else {
      var sa, sb := Decimal(a), Decimal(b);
      assert sa == Decimal(a / 10) + [DigitChar(a % 10)];
      assert sb == Decimal(b / 10) + [DigitChar(b % 10)];
      assert |Decimal(a / 10)| == |Decimal(b / 10)|;
      assert sa[|sa| - 1] == DigitChar(a % 10) && sb[|sb| - 1] == DigitChar(b % 10);
      assert sa[..|sa| - 1] == Decimal(a / 10);
      assert sb[..|sb| - 1] == Decimal(b / 10);
      DecimalInjective(a / 10, b / 10);
    }
  }

  /** Distinct counter values give distinct ids. */
  lemma IdOfInjective(a: nat, b: nat)
    ensures IdOf(a) == IdOf(b) <==> a == b
  {
    if IdOf(a) == IdOf(b) {
      DecimalInjective(a, b);
    }
  }

  /** `id` is one of the first n ids handed out. */
  ghost predicate IssuedBefore(id: string, n: nat)
  {
    exists k: nat :: k < n && IdOf(k) == id
  }

  /** The next id has not been handed out before: the supplier never repeats itself. */
  lemma NextIdIsFresh(n: nat)
    ensures !IssuedBefore(IdOf(n), n)
  {
    forall k: nat | k < n
      ensures IdOf(k) != IdOf(n)
    {
      IdOfInjective(k, n);
    }
  }
}
