/** Big-endian positional notation in an arbitrary base, the arithmetic that Go's big.Int performs
    for base58 (SetBytes, DivMod, Mul/Add, Bytes) and that fixed-width integers need on the wire. */
module Digits {

  ghost predicate AllBelow(ds: seq<nat>, base: nat) {
    forall i :: 0 <= i < |ds| ==> ds[i] < base
  }

  /** The number a big-endian digit string denotes. */
  function FromDigits(ds: seq<nat>, base: nat): (n: nat)
  {
    if ds == [] then 0 else FromDigits(ds[..|ds| - 1], base) * base + ds[|ds| - 1]
  }

  /** The minimal digit string of a number: no leading zero, and nothing at all for zero. */
  function ToDigits(n: nat, base: nat): (ds: seq<nat>)
    requires base >= 2
    ensures AllBelow(ds, base)
    ensures ds == [] <==> n == 0
    ensures ds != [] ==> ds[0] != 0
    decreases n
  {
    if n == 0 then [] else ToDigits(n / base, base) + [n % base]
  }

  /** A digit string of exactly `width` places; higher places are cut off. */
  function Fixed(n: nat, base: nat, width: nat): (ds: seq<nat>)
    requires base >= 2
    ensures |ds| == width && AllBelow(ds, base)
    decreases width
  {
    if width == 0 then [] else Fixed(n / base, base, width - 1) + [n % base]
  }

  function Power(base: nat, e: nat): (p: nat)
  {
    if e == 0 then 1 else Power(base, e - 1) * base
  }

  function Zeros(k: nat): (zs: seq<nat>)
    ensures |zs| == k && forall i :: 0 <= i < k ==> zs[i] == 0
  {
    seq(k, _ => 0)
  }

  function LeadingZeros(ds: seq<nat>): (k: nat)
    ensures k <= |ds| && ds[..k] == Zeros(k)
    ensures k < |ds| ==> ds[k] != 0
  {
    if ds == [] || ds[0] != 0 then 0 else 1 + LeadingZeros(ds[1..])
  }

  /** Re-express a number in another base, carrying each leading zero over as one zero digit. */
  function Convert(ds: seq<nat>, from: nat, to: nat): (r: seq<nat>)
    requires to >= 2
    ensures AllBelow(r, to)
  {
    Zeros(LeadingZeros(ds)) + ToDigits(FromDigits(ds, from), to)
  }

  // ---- Division by a base ----

  lemma MultipleAtLeast(k: nat, base: nat)
    requires k >= 1
    ensures k * base >= base
  {
    assert (k - 1) * base >= 0;
  }

  lemma DivModUnique(q: nat, base: nat, r: nat)
    requires r < base
    ensures (q * base + r) / base == q && (q * base + r) % base == r
  {
    var d, m := (q * base + r) / base, (q * base + r) % base;
    assert d * base + m == q * base + r;
    assert (d - q) * base == r - m;
    if d > q {
      MultipleAtLeast(d - q, base);
      assert false;
    } else if d < q {
      assert (q - d) * base == m - r;
      MultipleAtLeast(q - d, base);
      assert false;
    }
  }

  // ---- Digit strings and numbers ----

  lemma FromSnoc(ds: seq<nat>, d: nat, base: nat)
    ensures FromDigits(ds + [d], base) == FromDigits(ds, base) * base + d
  {
    assert (ds + [d])[..|ds|] == ds;
  }

  lemma DivModSum(n: nat, base: nat)
    requires base >= 1
    ensures n == n / base * base + n % base && n % base < base
  {
  }

  lemma QuotientSmaller(n: nat, q: nat, base: nat, r: nat)
    requires base >= 2 && n == q * base + r && n > 0
    ensures q < n
  {
    if q > 0 {
      MultipleAtLeast(base - 1, q);
      Spread(q, base - 1);
    }
  }

  lemma Spread(q: nat, k: nat)
    ensures q * (k + 1) == k * q + q
  {
  }

  /** Splitting off the last digit. */
  lemma DivMod(n: nat, base: nat) returns (q: nat, r: nat)
    requires base >= 2
    ensures q == n / base && r == n % base && r < base
    ensures n == q * base + r
    ensures n > 0 ==> q < n
  {
    q, r := n / base, n % base;
    DivModSum(n, base);
    if n > 0 {
      QuotientSmaller(n, q, base, r);
    }
  }

  lemma {:induction false} FromToDigits(n: nat, base: nat)
    requires base >= 2
    ensures FromDigits(ToDigits(n, base), base) == n
  {
    if n > 0 {
      var q, r := DivMod(n, base);
      FromToDigits(q, base);
      FromSnoc(ToDigits(q, base), r, base);
    }
  }

  lemma {:induction false} FromDigitsPositive(ds: seq<nat>, base: nat)
    requires base >= 2 && ds != [] && ds[0] != 0
    ensures FromDigits(ds, base) > 0
  {
    if |ds| > 1 {
      FromDigitsPositive(ds[..|ds| - 1], base);
    }
  }

  lemma {:induction false} ToFromDigits(ds: seq<nat>, base: nat)
    requires base >= 2 && AllBelow(ds, base)
    requires ds != [] ==> ds[0] != 0
    ensures ToDigits(FromDigits(ds, base), base) == ds
  {
    if ds != [] {
      var front, last := ds[..|ds| - 1], ds[|ds| - 1];
      ToFromDigits(front, base);
      DivModUnique(FromDigits(front, base), base, last);
      FromDigitsPositive(ds, base);
      assert front + [last] == ds;
    }
  }

  lemma {:induction false} LeadingZerosAreWorthless(k: nat, ds: seq<nat>, base: nat)
    ensures FromDigits(Zeros(k) + ds, base) == FromDigits(ds, base)
    decreases k + |ds|
  {
    if ds != [] {
      LeadingZerosAreWorthless(k, ds[..|ds| - 1], base);
      assert (Zeros(k) + ds)[..k + |ds| - 1] == Zeros(k) + ds[..|ds| - 1];
    } else if k > 0 {
      LeadingZerosAreWorthless(k - 1, [], base);
      assert (Zeros(k) + [])[..k - 1] == Zeros(k - 1) + [];
    }
  }

  lemma {:induction false} LeadingZerosOf(k: nat, ds: seq<nat>)
    requires ds != [] ==> ds[0] != 0
    ensures LeadingZeros(Zeros(k) + ds) == k
  {
    if k > 0 {
      LeadingZerosOf(k - 1, ds);
      assert (Zeros(k) + ds)[1..] == Zeros(k - 1) + ds;
    }
  }

  lemma CountedLeadingZeros(ds: seq<nat>, k: nat)
    requires k <= |ds| && forall i :: 0 <= i < k ==> ds[i] == 0
    requires k < |ds| ==> ds[k] != 0
    ensures LeadingZeros(ds) == k
  {
    LeadingZerosOf(k, ds[k..]);
    assert ds == Zeros(k) + ds[k..];
  }

  /** Converting to another base and back is the identity, leading zeros included. */
  lemma ConvertRoundTrip(ds: seq<nat>, from: nat, to: nat)
    requires from >= 2 && to >= 2 && AllBelow(ds, from)
    ensures Convert(Convert(ds, from, to), to, from) == ds
  {
    var k, n := LeadingZeros(ds), FromDigits(ds, from);
    var there := ToDigits(n, to);
    assert LeadingZeros(Zeros(k) + there) == k && FromDigits(Zeros(k) + there, to) == n by {
      LeadingZerosOf(k, there);
      LeadingZerosAreWorthless(k, there, to);
      FromToDigits(n, to);
    }
    assert ds == Zeros(k) + ds[k..];
    assert ToDigits(n, from) == ds[k..] by {
      LeadingZerosAreWorthless(k, ds[k..], from);
      ToFromDigits(ds[k..], from);
    }
  }

  // ---- Fixed width ----

  lemma MulMonotone(x: nat, y: nat, base: nat)
    requires x <= y
    ensures x * base <= y * base
  {
    assert (y - x) * base >= 0;
  }

  lemma QuotientBelow(q: nat, bound: nat, r: nat, base: nat)
    requires q * base + r < bound * base
    ensures q < bound
  {
    if q >= bound {
      MulMonotone(bound, q, base);
      assert false;
    }
  }

  lemma {:induction false} FromFixed(n: nat, base: nat, width: nat)
    requires base >= 2 && n < Power(base, width)
    ensures FromDigits(Fixed(n, base, width), base) == n
  {
    if width > 0 {
      var q, r := DivMod(n, base);
      QuotientBelow(q, Power(base, width - 1), r, base);
      FromFixed(q, base, width - 1);
      FromSnoc(Fixed(q, base, width - 1), r, base);
    }
  }
}
