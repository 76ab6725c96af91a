/** Positional numerals, most significant digit first, of any base. */
module Positional {

  function Pow(b: nat, n: nat): nat {
    if n == 0 then 1 else Pow(b, n - 1) * b
  }

  ghost predicate IsNumeral(b: nat, ds: seq<nat>) {
    forall i :: 0 <= i < |ds| ==> ds[i] < b
  }

  function Value(b: nat, ds: seq<nat>): nat {
    if ds == [] then 0 else Value(b, ds[..|ds| - 1]) * b + ds[|ds| - 1]
  }

  /** Quotient and remainder by repeated subtraction, away from non-linear division. */
  function Quot(n: nat, b: nat): (q: nat)
    requires b > 0
    ensures q <= n && (n >= b > 1 ==> 0 < q < n)
  {
    if n < b then 0 else 1 + Quot(n - b, b)
  }

  function Rem(n: nat, b: nat): (r: nat)
    requires b > 0
    ensures r < b
  {
    if n < b then n else Rem(n - b, b)
  }

  /** The last `len` digits of `n`. */
  function Fixed(b: nat, n: nat, len: nat): (ds: seq<nat>)
    requires b > 0
    ensures |ds| == len
    ensures IsNumeral(b, ds)
    decreases n, len
  {
    if len == 0 then [] else Fixed(b, Quot(n, b), len - 1) + [Rem(n, b)]
  }

  /** The numeral of `n` without leading zeros; zero is a single digit. */
  function Minimal(b: nat, n: nat): (ds: seq<nat>)
    requires b > 1
    ensures IsNumeral(b, ds) && ds != []
  {
    if n < b then [n] else Minimal(b, Quot(n, b)) + [Rem(n, b)]
  }

  function Zeros(n: nat): seq<nat> {
    seq(n, _ => 0)
  }

  lemma MulMonotone(a: nat, c: nat, b: nat)
    requires a <= c
    ensures a * b <= c * b
  {
    assert c * b == a * b + (c - a) * b;
  }

  lemma {:induction false} Division(n: nat, b: nat)
    requires b > 0
    ensures n == Quot(n, b) * b + Rem(n, b)
  {
    if n >= b {
      Division(n - b, b);
    }
  }

  lemma {:induction false} DivisionIsUnique(b: nat, q: nat, r: nat)
    requires r < b
    ensures Quot(q * b + r, b) == q && Rem(q * b + r, b) == r
  {
    if q == 0 {
      assert q * b == 0;
    } else {
      assert q * b == (q - 1) * b + b;
      MulMonotone(0, q - 1, b);
      DivisionIsUnique(b, q - 1, r);
    }
  }

  /** The machine's division agrees. */
  lemma Division256(n: nat)
    ensures Quot(n, 256) == n / 256 && Rem(n, 256) == n % 256
  {
    DivisionIsUnique(256, n / 256, n % 256);
  }

  lemma {:induction false} ValueBound(b: nat, ds: seq<nat>)
    requires IsNumeral(b, ds)
    ensures Value(b, ds) < Pow(b, |ds|)
  {
    if ds != [] {
      var init := ds[..|ds| - 1];
      ValueBound(b, init);
      OneMoreDigit(Value(b, init), ds[|ds| - 1], Pow(b, |init|), b);
    }
  }

  lemma OneMoreDigit(v: nat, d: nat, p: nat, b: nat)
    requires v < p && d < b
    ensures v * b + d < p * b
  {
    MulMonotone(v + 1, p, b);
    assert (v + 1) * b == v * b + b;
  }

  lemma {:induction false} FixedOfValue(b: nat, ds: seq<nat>)
    requires b > 0 && IsNumeral(b, ds)
    ensures Fixed(b, Value(b, ds), |ds|) == ds
  {
    if ds != [] {
      var init := ds[..|ds| - 1];
      FixedOfValue(b, init);
      DivisionIsUnique(b, Value(b, init), ds[|ds| - 1]);
      assert ds == init + [ds[|ds| - 1]];
    }
  }

  lemma {:induction false} ValueOfFixed(b: nat, n: nat, len: nat)
    requires b > 0 && n < Pow(b, len)
    ensures Value(b, Fixed(b, n, len)) == n
    decreases n, len
  {
    if len > 0 {
      QuotientFits(b, n, len);
      ValueOfFixed(b, Quot(n, b), len - 1);
      assert Fixed(b, n, len)[..len - 1] == Fixed(b, Quot(n, b), len - 1);
      Division(n, b);
    }
  }

  lemma QuotientFits(b: nat, n: nat, len: nat)
    requires b > 0 && len > 0
    ensures n < Pow(b, len) <==> Quot(n, b) < Pow(b, len - 1)
  {
    var q, p := Quot(n, b), Pow(b, len - 1);
    Division(n, b);
    if q < p {
      MulMonotone(q + 1, p, b);
      assert (q + 1) * b == q * b + b;
    } else {
      MulMonotone(p, q, b);
    }
  }

  /** A minimal numeral fits exactly when the value does, and padding it gives the fixed one. */
  lemma {:induction false} PaddedMinimal(b: nat, n: nat, len: nat)
    requires b > 1 && len > 0
    ensures |Minimal(b, n)| <= len <==> n < Pow(b, len)
    ensures n < Pow(b, len) ==> Zeros(len - |Minimal(b, n)|) + Minimal(b, n) == Fixed(b, n, len)
    decreases n, len
  {
    QuotientFits(b, n, len);
    if n < b {
      FixedOfSmall(b, n, len);
      PowPositive(b, len - 1);
    } else if len > 1 {
      PaddedMinimal(b, Quot(n, b), len - 1);
    }
  }

  lemma {:induction false} FixedOfSmall(b: nat, n: nat, len: nat)
    requires b > 1 && n < b && len > 0
    ensures Fixed(b, n, len) == Zeros(len - 1) + [n]
  {
    FixedOfZero(b, len - 1);
  }

  lemma {:induction false} FixedOfZero(b: nat, len: nat)
    requires b > 1
    ensures Fixed(b, 0, len) == Zeros(len)
  {
    if len > 0 {
      FixedOfZero(b, len - 1);
    }
  }

  lemma {:induction false} PowPositive(b: nat, n: nat)
    requires b > 0
    ensures Pow(b, n) > 0
  {
    if n > 0 {
      PowPositive(b, n - 1);
    }
  }

  lemma {:induction false} PowAdd(b: nat, m: nat, n: nat)
    ensures Pow(b, m + n) == Pow(b, m) * Pow(b, n)
  {
    if n > 0 {
      PowAdd(b, m, n - 1);
      assert Pow(b, m) * Pow(b, n) == Pow(b, m) * Pow(b, n - 1) * b;
    }
  }

  lemma {:induction false} ValueOfPadded(b: nat, k: nat, ds: seq<nat>)
    ensures Value(b, Zeros(k) + ds) == Value(b, ds)
  {
    var all := Zeros(k) + ds;
    if ds == [] {
      assert all == Zeros(k);
      if k > 0 {
        assert Zeros(k)[..k - 1] == Zeros(k - 1);
        ValueOfPadded(b, k - 1, []);
        assert Zeros(k - 1) + [] == Zeros(k - 1);
      }
    } else {
      assert all[..|all| - 1] == Zeros(k) + ds[..|ds| - 1];
      ValueOfPadded(b, k, ds[..|ds| - 1]);
    }
  }

  /** The number of binary digits; zero has none. */
  function BitLen(n: nat): nat {
    if n == 0 then 0 else 1 + BitLen(Quot(n, 2))
  }

  lemma {:induction false} BitLenBound(n: nat, k: nat)
    ensures BitLen(n) <= k <==> n < Pow(2, k)
  {
    PowPositive(2, k);
    if n > 0 && k > 0 {
      QuotientFits(2, n, k);
      BitLenBound(Quot(n, 2), k - 1);
    }
  }
}
