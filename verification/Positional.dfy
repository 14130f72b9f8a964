/**
 Big-endian positional notation in the three bases the program uses: a digit
 string read as a number, and a number written with a fixed count of digits.
 */
module Positional {
  datatype Base = Ten | SixtyFour | TwoFiftySix {
    function Size(): (n: nat)
      ensures n > 0
    {
      match this case Ten => 10 case SixtyFour => 64 case TwoFiftySix => 256
    }

    // One case per base keeps every product and quotient linear.
    function Times(v: nat): nat {
      match this case Ten => v * 10 case SixtyFour => v * 64 case TwoFiftySix => v * 256
    }

    function Quot(v: nat): nat {
      match this case Ten => v / 10 case SixtyFour => v / 64 case TwoFiftySix => v / 256
    }

    function Rem(v: nat): (r: nat)
      ensures r < Size()
      ensures v == Times(Quot(v)) + r
    {
      match this case Ten => v % 10 case SixtyFour => v % 64 case TwoFiftySix => v % 256
    }
  }

  function Pow(base: Base, n: nat): (p: nat)
    ensures p > 0
  {
    if n == 0 then 1 else base.Times(Pow(base, n - 1))
  }

  predicate AreDigits(d: seq<nat>, base: Base) {
    forall i :: 0 <= i < |d| ==> d[i] < base.Size()
  }

  function Value(d: seq<nat>, base: Base): nat {
    if d == [] then 0 else base.Times(Value(d[..|d| - 1], base)) + d[|d| - 1]
  }

  /** The last `n` digits of `v`, most significant first. */
  function Digits(v: nat, n: nat, base: Base): (d: seq<nat>)
    ensures |d| == n && AreDigits(d, base)
  {
    if n == 0 then [] else Digits(base.Quot(v), n - 1, base) + [base.Rem(v)]
  }

  lemma ValueOfSnoc(d: seq<nat>, x: nat, base: Base)
    ensures Value(d + [x], base) == base.Times(Value(d, base)) + x
  {
    assert (d + [x])[..|d|] == d;
  }

  /** Writing down the number a digit string denotes gives that string back. */
  lemma {:induction false} DigitsOfValue(d: seq<nat>, base: Base)
    requires AreDigits(d, base)
    ensures Digits(Value(d, base), |d|, base) == d
  {
    if d != [] {
      var init, x := d[..|d| - 1], d[|d| - 1];
      DigitsOfValue(init, base);
      assert base.Quot(Value(d, base)) == Value(init, base) && base.Rem(Value(d, base)) == x;
      assert d == init + [x];
    }
  }

  /** A number that fits into `n` digits is recovered from them. */
  lemma {:induction false} ValueOfDigits(v: nat, n: nat, base: Base)
    requires v < Pow(base, n)
    ensures Value(Digits(v, n, base), base) == v
  {
    if n > 0 {
      ValueOfDigits(base.Quot(v), n - 1, base);
      ValueOfSnoc(Digits(base.Quot(v), n - 1, base), base.Rem(v), base);
    }
  }

  lemma {:induction false} ValueBound(d: seq<nat>, base: Base)
    requires AreDigits(d, base)
    ensures Value(d, base) < Pow(base, |d|)
  {
    if d != [] {
      ValueBound(d[..|d| - 1], base);
    }
  }
}
