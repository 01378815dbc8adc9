/** Positional numerals with significant leading zeros, in any base. */
module Positional {

  type Base = b: int | 2 <= b witness 2

  ghost predicate DigitsOf(b: Base, ds: seq<nat>) { forall i :: 0 <= i < |ds| ==> ds[i] < b }

  /** The number that big-endian digits denote. */
  function Value(b: Base, ds: seq<nat>): nat {
    if ds == [] then 0 else Value(b, ds[..|ds| - 1]) * b + ds[|ds| - 1]
  }

  /** The digits of a number, without leading zeros; zero has none. */
  function Digits(b: Base, n: nat): seq<nat>
    decreases n
  {
    if n == 0 then [] else QuotientSmaller(n, b); Digits(b, n / b) + [n % b]
  }

  lemma Product(a: nat, b: nat, x: nat, y: nat)
    requires a <= b && x <= y
    ensures a * x <= b * y
  {
    assert a * x <= a * y;
    assert a * y <= b * y;
  }

  lemma Division(n: nat, b: Base)
    ensures n == (n / b) * b + n % b && 0 <= n % b < b
  {
  }

  lemma QuotientSmaller(n: nat, b: Base)
    requires n > 0
    ensures n / b < n
  {
    var q := n / b;
    assert n == b * q + n % b;
    if q >= n { Product(2, b, q, q); }
  }

  lemma QuotientOf(q: nat, r: nat, b: Base)
    requires r < b
    ensures (q * b + r) / b == q && (q * b + r) % b == r
  {
    var n := q * b + r;
    var p, m := n / b, n % b;
    assert n == p * b + m;
    assert (q - p) * b == m - r;
    if p < q { Product(1, q - p, b, b); }
    if p > q { Product(1, p - q, b, b); }
  }

  function LeadingZeros(ds: seq<nat>): nat {
    if ds == [] || ds[0] != 0 then 0 else 1 + LeadingZeros(ds[1..])
  }

  function Zeros(n: nat): seq<nat> { seq(n, _ => 0) }

  /** Rewrites digits of base `a` as digits of base `b`; every leading zero stays one leading zero. */
  function Recode(a: Base, b: Base, ds: seq<nat>): seq<nat> { Zeros(LeadingZeros(ds)) + Digits(b, Value(a, ds)) }

  lemma ValueSnoc(b: Base, front: seq<nat>, d: nat)
    ensures Value(b, front + [d]) == Value(b, front) * b + d
  {
    assert (front + [d])[..|front|] == front;
  }

  lemma {:induction false} DigitsDenote(b: Base, n: nat)
    ensures Value(b, Digits(b, n)) == n && DigitsOf(b, Digits(b, n))
    ensures n > 0 ==> Digits(b, n) != [] && Digits(b, n)[0] != 0
    decreases n
  {
    if n > 0 {
      var q, r := n / b, n % b;
      Division(n, b);
      QuotientSmaller(n, b);
      DigitsDenote(b, q);
      ValueSnoc(b, Digits(b, q), r);
      assert Digits(b, n) == Digits(b, q) + [r];
    }
  }

  lemma {:induction false} PositiveValue(b: Base, ds: seq<nat>)
    requires DigitsOf(b, ds) && ds != [] && ds[0] != 0
    ensures Value(b, ds) > 0
  {
    if |ds| > 1 {
      PositiveValue(b, ds[..|ds| - 1]);
      assert Value(b, ds[..|ds| - 1]) * b > 0;
    }
  }

  /** Digits without a leading zero are the digits of their value. */
  lemma {:induction false} DigitsUnique(b: Base, ds: seq<nat>)
    requires DigitsOf(b, ds) && (ds != [] ==> ds[0] != 0)
    ensures Digits(b, Value(b, ds)) == ds
  {
    if ds != [] {
      var front := ds[..|ds| - 1];
      DigitsUnique(b, front);
      PositiveValue(b, ds);
      QuotientOf(Value(b, front), ds[|ds| - 1], b);
      assert ds == front + [ds[|ds| - 1]];
    }
  }

  lemma {:induction false} ZerosAddNothing(b: Base, k: nat, ds: seq<nat>)
    ensures Value(b, Zeros(k) + ds) == Value(b, ds)
  {
    var all := Zeros(k) + ds;
    if ds != [] {
      assert all[..|all| - 1] == Zeros(k) + ds[..|ds| - 1];
      ZerosAddNothing(b, k, ds[..|ds| - 1]);
    } else if k > 0 {
      assert all[..|all| - 1] == Zeros(k - 1) + ds;
      ZerosAddNothing(b, k - 1, ds);
    }
  }

  lemma {:induction false} ZerosAreLeading(k: nat, ds: seq<nat>)
    requires ds != [] ==> ds[0] != 0
    ensures LeadingZeros(Zeros(k) + ds) == k
  {
    if k > 0 {
      assert (Zeros(k) + ds)[1..] == Zeros(k - 1) + ds;
      ZerosAreLeading(k - 1, ds);
    } else {
      assert Zeros(k) + ds == ds;
    }
  }

  lemma {:induction false} SplitZeros(ds: seq<nat>)
    ensures var k := LeadingZeros(ds); k <= |ds| && ds == Zeros(k) + ds[k..] && (k < |ds| ==> ds[k] != 0)
  {
    if ds != [] && ds[0] == 0 {
      SplitZeros(ds[1..]);
      var k := LeadingZeros(ds[1..]);
      assert ds == [0] + ds[1..];
      assert ds[1..][k..] == ds[k + 1..];
      assert [0] + Zeros(k) == Zeros(k + 1);
    }
  }

  /** Recoding is its own inverse, with the bases exchanged, on all digits. */
  lemma RecodeRoundTrip(a: Base, b: Base, ds: seq<nat>)
    requires DigitsOf(a, ds)
    ensures Recode(b, a, Recode(a, b, ds)) == ds && DigitsOf(b, Recode(a, b, ds))
  {
    var k := LeadingZeros(ds);
    SplitZeros(ds);
    var n := Value(a, ds);
    DigitsDenote(b, n);
    ZerosAreLeading(k, Digits(b, n));
    ZerosAddNothing(b, k, Digits(b, n));
    ZerosAddNothing(a, k, ds[k..]);
    DigitsUnique(a, ds[k..]);
  }

  /** The first digit counts most: so many powers of the base as digits follow it. */
  lemma {:induction false} FirstDigitCountsMost(b: Base, d: nat, ds: seq<nat>)
    ensures Value(b, [d] + ds) == d * Pow(b, |ds|) + Value(b, ds)
  {
    var all := [d] + ds;
    if ds == [] {
      assert all[..0] == [] && all[0] == d;
    } else {
      var front, last := ds[..|ds| - 1], ds[|ds| - 1];
      FirstDigitCountsMost(b, d, front);
      assert all == ([d] + front) + [last];
      ValueSnoc(b, [d] + front, last);
      assert ds == front + [last];
      ValueSnoc(b, front, last);
      assert (d * Pow(b, |front|) + Value(b, front)) * b == d * (b * Pow(b, |front|)) + Value(b, front) * b;
    }
  }

  function Pow(b: Base, k: nat): nat { if k == 0 then 1 else b * Pow(b, k - 1) }

  lemma Shifted(b: Base, v: nat, p: nat, d: nat)
    requires d < b
    ensures v < p ==> v * b + d < b * p
    ensures p <= v ==> b * p <= v * b + d
  {
    if v < p { Product(b, b, v + 1, p); assert b * (v + 1) == v * b + b; }
    if p <= v { Product(b, b, p, v); }
  }

  lemma {:induction false} ValueBelow(b: Base, ds: seq<nat>)
    requires DigitsOf(b, ds)
    ensures Value(b, ds) < Pow(b, |ds|)
  {
    if ds != [] {
      var front := ds[..|ds| - 1];
      ValueBelow(b, front);
      Shifted(b, Value(b, front), Pow(b, |front|), ds[|ds| - 1]);
    }
  }

  lemma {:induction false} ValueAbove(b: Base, ds: seq<nat>)
    requires DigitsOf(b, ds) && ds != [] && ds[0] != 0
    ensures Pow(b, |ds| - 1) <= Value(b, ds)
  {
    var front := ds[..|ds| - 1];
    if front == [] {
      assert Value(b, front) == 0;
    } else {
      ValueAbove(b, front);
      Shifted(b, Value(b, front), Pow(b, |front| - 1), ds[|ds| - 1]);
    }
  }

  lemma {:induction false} PowGrows(b: Base, j: nat, k: nat)
    requires j <= k
    ensures Pow(b, j) <= Pow(b, k)
  {
    if j < k {
      PowGrows(b, j, k - 1);
      Product(1, b, Pow(b, k - 1), Pow(b, k - 1));
    }
  }

  lemma {:induction false} PowMonotone(a: Base, b: Base, k: nat)
    requires a <= b
    ensures Pow(a, k) <= Pow(b, k)
  {
    if k > 0 {
      PowMonotone(a, b, k - 1);
      Product(a, b, Pow(a, k - 1), Pow(b, k - 1));
    }
  }
}
