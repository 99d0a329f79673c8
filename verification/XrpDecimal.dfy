/** Drops shown as XRP and XRP read back as drops (apps/web/lib/bridgesafe.ts). */
module XrpDecimal {
  import opened Wrappers
  import opened Digits

  const DROPS_PER_XRP: nat := 1_000_000

  predicate IsDigit(c: char) {
    '0' <= c <= '9'
  }

  predicate AllDigits(s: string) {
    forall i :: 0 <= i < |s| ==> IsDigit(s[i])
  }

  function DigitOf(d: nat): char
    requires d < 10
  {
    '0' + d as char
  }

  /** The number a string of digits denotes; the empty string denotes zero. */
  function ValueOf(s: string): nat
    requires AllDigits(s)
  {
    if s == "" then 0 else ValueOf(s[..|s| - 1]) * 10 + (s[|s| - 1] - '0') as nat
  }

  /** A bigint's toString. */
  function Decimal(n: nat): (s: string)
    ensures s != ""
  {
    if n < 10 then [DigitOf(n)] else Decimal(n / 10) + [DigitOf(n % 10)]
  }

  function ZeroChars(k: nat): (s: string)
    ensures |s| == k && forall i :: 0 <= i < k ==> s[i] == '0'
  {
    seq(k, _ => '0')
  }

  function PadStart(s: string, width: nat): string {
    if |s| >= width then s else ZeroChars(width - |s|) + s
  }

  /** `replace(/0+$/, "")`. */
  function StripZeros(s: string): string {
    if s != "" && s[|s| - 1] == '0' then StripZeros(s[..|s| - 1]) else s
  }

  function FormatXrp(drops: nat): string {
    var whole, frac := drops / DROPS_PER_XRP, drops % DROPS_PER_XRP;
    if frac == 0 then Decimal(whole) else Decimal(whole) + "." + StripZeros(PadStart(Decimal(frac), 6))
  }

  predicate IsSpace(c: char) {
    c == ' ' || c == '\t' || c == '\n' || c == '\r'
  }

  function Trim(s: string): string {
    if s == "" then ""
    else if IsSpace(s[0]) then Trim(s[1..])
    else if IsSpace(s[|s| - 1]) then Trim(s[..|s| - 1])
    else s
  }

  /** Where the first dot is, or the length without one. */
  function FirstDot(s: string): (n: nat)
    ensures n <= |s| && (n < |s| ==> s[n] == '.')
  {
    if s == "" || s[0] == '.' then 0 else 1 + FirstDot(s[1..])
  }

  /** The first two parts of `split(".")`; a missing second part is empty, further parts are ignored. */
  function Whole(s: string): string {
    s[..FirstDot(s)]
  }

  function Fraction(s: string): string {
    var n := FirstDot(s);
    if n == |s| then "" else Whole(s[n + 1..])
  }

  /** `BigInt` of a string of digits. Other strings are not part of this model. */
  function BigInt(s: string): Option<nat> {
    if AllDigits(s) then Some(ValueOf(s)) else None
  }

  function ToDrops(xrp: string): Option<nat> {
    var s := Trim(xrp);
    var whole, frac := BigInt(Whole(s)), BigInt((Fraction(s) + "000000")[..6]);
    if whole.None? || frac.None? then None else Some(whole.value * DROPS_PER_XRP + frac.value)
  }

  // ---- Digit strings ----

  lemma Scale(n: nat, p: nat, q: nat)
    ensures n * (p * q) == (n * p) * q
  {
  }

  lemma ValueSnoc(s: string, c: char)
    requires AllDigits(s) && IsDigit(c)
    ensures AllDigits(s + [c]) && ValueOf(s + [c]) == ValueOf(s) * 10 + (c - '0') as nat
  {
    assert (s + [c])[..|s|] == s;
  }

  lemma {:induction false} ValueAppend(s: string, t: string)
    requires AllDigits(s) && AllDigits(t)
    ensures AllDigits(s + t) && ValueOf(s + t) == ValueOf(s) * Power(10, |t|) + ValueOf(t)
  {
    if t == "" {
      assert s + t == s;
    } else {
      hide ValueOf;
      var front, c := t[..|t| - 1], t[|t| - 1];
      ValueAppend(s, front);
      ValueSnoc(s + front, c);
      ValueSnoc(front, c);
      assert s + t == s + front + [c] && t == front + [c];
      AppendArithmetic(ValueOf(s), Power(10, |t| - 1), ValueOf(front), (c - '0') as nat);
    }
  }

  lemma AppendArithmetic(s: nat, k: nat, f: nat, d: nat)
    ensures (s * k + f) * 10 + d == s * (k * 10) + (f * 10 + d)
  {
    Scale(s, k, 10);
  }

  lemma {:induction false} ZerosAreZero(k: nat)
    ensures AllDigits(ZeroChars(k)) && ValueOf(ZeroChars(k)) == 0
  {
    if k > 0 {
      ZerosAreZero(k - 1);
      assert ZeroChars(k)[..k - 1] == ZeroChars(k - 1);
    }
  }

  lemma {:induction false} DecimalDenotes(n: nat)
    ensures AllDigits(Decimal(n)) && ValueOf(Decimal(n)) == n
  {
    if n < 10 {
      assert Decimal(n)[..0] == "";
    } else {
      DecimalDenotes(n / 10);
      assert Decimal(n)[..|Decimal(n)| - 1] == Decimal(n / 10);
    }
  }

  lemma {:induction false} DecimalFits(n: nat, width: nat)
    requires width > 0 && n < Power(10, width)
    ensures |Decimal(n)| <= width
  {
    if n >= 10 {
      if width == 1 {
        assert false;
      }
      DecimalFits(n / 10, width - 1);
    }
  }

  lemma PadKeepsValue(s: string, width: nat)
    requires AllDigits(s) && |s| <= width
    ensures AllDigits(PadStart(s, width)) && |PadStart(s, width)| == width && ValueOf(PadStart(s, width)) == ValueOf(s)
  {
    hide ValueOf, Power;
    ZerosAreZero(width - |s|);
    ValueAppend(ZeroChars(width - |s|), s);
  }

  /** Stripped zeros come back by padding at the end. */
  lemma {:induction false} StripThenPad(s: string)
    requires AllDigits(s)
    ensures AllDigits(StripZeros(s)) && |StripZeros(s)| <= |s|
    ensures s == StripZeros(s) + ZeroChars(|s| - |StripZeros(s)|)
  {
    if s != "" && s[|s| - 1] == '0' {
      StripThenPad(s[..|s| - 1]);
    }
  }

  lemma {:induction false} ValueBelow(s: string)
    requires AllDigits(s)
    ensures ValueOf(s) < Power(10, |s|)
  {
    if s != "" {
      ValueBelow(s[..|s| - 1]);
    }
  }

  // ---- Reading a plain decimal ----

  lemma {:induction false} TrimSpaces(a: string, s: string, b: string)
    requires forall i :: 0 <= i < |a| ==> IsSpace(a[i])
    requires forall i :: 0 <= i < |b| ==> IsSpace(b[i])
    requires s != "" && !IsSpace(s[0]) && !IsSpace(s[|s| - 1])
    ensures Trim(a + s + b) == s
    decreases |a| + |b|
  {
    if a != "" {
      assert (a + s + b)[1..] == a[1..] + s + b;
      TrimSpaces(a[1..], s, b);
    } else if b != "" {
      assert (a + s + b)[..|a + s + b| - 1] == a + s + b[..|b| - 1];
      TrimSpaces(a, s, b[..|b| - 1]);
    } else {
      assert a + s + b == s;
    }
  }

  lemma {:induction false} DotAfterDigits(w: string, rest: string)
    requires AllDigits(w) && (rest != "" ==> rest[0] == '.')
    ensures FirstDot(w + rest) == |w|
  {
    if w == "" {
      assert w + rest == rest;
    } else {
      assert (w + rest)[1..] == w[1..] + rest;
      DotAfterDigits(w[1..], rest);
    }
  }

  lemma PartsOf(w: string, f: string)
    requires AllDigits(w) && AllDigits(f)
    ensures Whole(w) == w && Fraction(w) == ""
    ensures Whole(w + "." + f) == w && Fraction(w + "." + f) == f
  {
    DotAfterDigits(w, "");
    DotAfterDigits(f, "");
    DotAfterDigits(w, "." + f);
    assert w + "" == w && f + "" == f && w + ("." + f) == w + "." + f;
    assert (w + "." + f)[|w| + 1..] == f;
  }

  /** The six digits the fraction is cut or padded to. */
  function Six(f: string): string {
    (f + "000000")[..6]
  }

  lemma SixOf(f: string)
    requires AllDigits(f)
    ensures AllDigits(Six(f))
    ensures |f| <= 6 ==> Six(f) == f + ZeroChars(6 - |f|)
    ensures |f| >= 6 ==> Six(f) == f[..6]
  {
  }

  lemma DropsOfParts(xrp: string, s: string, w: string, f: string)
    requires AllDigits(w) && Trim(xrp) == s && Whole(s) == w && Fraction(s) == f && AllDigits(Six(f))
    ensures ToDrops(xrp) == Some(ValueOf(w) * DROPS_PER_XRP + ValueOf(Six(f)))
  {
    assert (Fraction(s) + "000000")[..6] == Six(f);
    hide Trim, Whole, Fraction, ValueOf, Six;
  }

  lemma PlainTrims(a: string, w: string, f: string, b: string)
    requires AllDigits(w) && AllDigits(f)
    requires forall i :: 0 <= i < |a| ==> IsSpace(a[i])
    requires forall i :: 0 <= i < |b| ==> IsSpace(b[i])
    ensures Trim(a + (w + "." + f) + b) == w + "." + f
  {
    TrimSpaces(a, w + "." + f, b);
  }

  lemma ReadsPlain(a: string, w: string, f: string, b: string)
    requires AllDigits(w) && AllDigits(f)
    requires forall i :: 0 <= i < |a| ==> IsSpace(a[i])
    requires forall i :: 0 <= i < |b| ==> IsSpace(b[i])
    ensures AllDigits(Six(f))
    ensures ToDrops(a + (w + "." + f) + b) == Some(ValueOf(w) * DROPS_PER_XRP + ValueOf(Six(f)))
  {
    hide *;
    PlainTrims(a, w, f, b);
    PartsOf(w, f);
    SixOf(f);
    DropsOfParts(a + (w + "." + f) + b, w + "." + f, w, f);
  }

  lemma {:induction false} TrimBlank(s: string)
    requires forall i :: 0 <= i < |s| ==> IsSpace(s[i])
    ensures Trim(s) == ""
  {
    if s != "" {
      TrimBlank(s[1..]);
    }
  }

  lemma TrimAround(a: string, w: string, b: string)
    requires AllDigits(w)
    requires forall i :: 0 <= i < |a| ==> IsSpace(a[i])
    requires forall i :: 0 <= i < |b| ==> IsSpace(b[i])
    ensures Trim(a + w + b) == w
  {
    if w == "" {
      TrimBlank(a + w + b);
    } else {
      TrimSpaces(a, w, b);
    }
  }

  lemma NoFraction()
    ensures AllDigits(Six("")) && ValueOf(Six("")) == 0
  {
    SixOf("");
    ZerosAreZero(6);
    assert Six("") == ZeroChars(6);
  }

  /** A whole number of XRP, spaces around it or not, is read exactly; nothing at all is zero. */
  lemma ReadsWhole(a: string, w: string, b: string)
    requires AllDigits(w)
    requires forall i :: 0 <= i < |a| ==> IsSpace(a[i])
    requires forall i :: 0 <= i < |b| ==> IsSpace(b[i])
    ensures ToDrops(a + w + b) == Some(ValueOf(w) * DROPS_PER_XRP)
  {
    hide *;
    TrimAround(a, w, b);
    PartsOf(w, "");
    NoFraction();
    DropsOfParts(a + w + b, w, w, "");
  }

  lemma ThreeParts(w: string, f: string, rest: string)
    requires AllDigits(w) && AllDigits(f)
    ensures Whole(w + "." + f + "." + rest) == w && Fraction(w + "." + f + "." + rest) == f
  {
    var long, tail := w + "." + f + "." + rest, f + ("." + rest);
    assert long == w + ("." + tail);
    DotAfterDigits(w, "." + tail);
    DotAfterDigits(f, "." + rest);
    assert long[..|w|] == w && long[|w| + 1..] == tail && tail[..|f|] == f;
  }

  lemma LongTrims(w: string, f: string, rest: string)
    requires AllDigits(w) && (rest != "" ==> !IsSpace(rest[|rest| - 1]))
    ensures Trim(w + "." + f + "." + rest) == w + "." + f + "." + rest
  {
    var long := w + "." + f + "." + rest;
    TrimSpaces("", long, "");
    assert "" + long + "" == long;
  }

  /** What follows a second point is ignored. */
  lemma ThirdPartIgnored(w: string, f: string, rest: string)
    requires AllDigits(w) && AllDigits(f) && (rest != "" ==> !IsSpace(rest[|rest| - 1]))
    ensures ToDrops(w + "." + f + "." + rest) == ToDrops(w + "." + f)
  {
    hide *;
    var long := w + "." + f + "." + rest;
    ReadsPlain("", w, f, "");
    assert "" + (w + "." + f) + "" == w + "." + f;
    LongTrims(w, f, rest);
    ThreeParts(w, f, rest);
    DropsOfParts(long, long, w, f);
  }

  lemma {:induction false} PowerAdd(i: nat, j: nat)
    ensures Power(10, i + j) == Power(10, i) * Power(10, j)
  {
    if j > 0 {
      PowerAdd(i, j - 1);
      Scale(Power(10, i), Power(10, j - 1), 10);
    }
  }

  lemma Million()
    ensures Power(10, 6) == DROPS_PER_XRP
  {
    assert Power(10, 2) == 100;
    assert Power(10, 4) == 10_000;
  }

  lemma {:induction false} PowerPositive(k: nat)
    ensures Power(10, k) > 0
  {
    if k > 0 {
      PowerPositive(k - 1);
    }
  }

  /** Up to six places nothing is lost. */
  lemma ShortFraction(w: string, f: string)
    requires AllDigits(w) && AllDigits(f) && |f| <= 6
    ensures AllDigits(w + f) && AllDigits(Six(f))
    ensures (ValueOf(w) * DROPS_PER_XRP + ValueOf(Six(f))) * Power(10, |f|) == ValueOf(w + f) * DROPS_PER_XRP
  {
    hide ValueOf, Six, Power;
    var k := 6 - |f|;
    SixOf(f);
    ZerosAreZero(k);
    ValueAppend(w, f);
    ValueAppend(f, ZeroChars(k));
    PowerAdd(|f|, k);
    Million();
    ShortArithmetic(ValueOf(w), ValueOf(f), Power(10, |f|), Power(10, k));
  }

  lemma ShortArithmetic(w: nat, f: nat, p: nat, q: nat)
    ensures (w * (p * q) + f * q) * p == (w * p + f) * (p * q)
  {
    Scale(w, p, q);
    var x := w * p;
    calc {
      (w * (p * q) + f * q) * p;
      (x * q + f * q) * p;
      { Distribute(x, f, q); }
      ((x + f) * q) * p;
      { Scale(x + f, q, p); }
      (x + f) * (q * p);
    }
  }

  lemma Distribute(x: nat, y: nat, q: nat)
    ensures x * q + y * q == (x + y) * q
  {
  }

  /** Past six places the rest is cut off. */
  lemma LongFraction(w: string, f: string)
    requires AllDigits(w) && AllDigits(f) && |f| > 6
    ensures AllDigits(w + f) && AllDigits(Six(f))
    ensures
      var n := ValueOf(w) * DROPS_PER_XRP + ValueOf(Six(f));
      n * Power(10, |f|) <= ValueOf(w + f) * DROPS_PER_XRP < (n + 1) * Power(10, |f|)
  {
    hide ValueOf, Six, Power;
    var six, g := f[..6], f[6..];
    SixOf(f);
    assert f == six + g && w + f == (w + six) + g;
    ValueAppend(w, six);
    ValueAppend(w + six, g);
    ValueBelow(g);
    Million();
    PowerAdd(|g|, 6);
    LongArithmetic(ValueOf(w + six), ValueOf(g), Power(10, |g|));
  }

  lemma LongArithmetic(n: nat, g: nat, p: nat)
    requires g < p
    ensures n * (p * DROPS_PER_XRP) <= (n * p + g) * DROPS_PER_XRP < (n + 1) * (p * DROPS_PER_XRP)
  {
    Scale(n, p, DROPS_PER_XRP);
    Scale(n + 1, p, DROPS_PER_XRP);
    Distribute(n, 1, p);
  }

  /** Any plain decimal, spaces around it or not, is read as its value truncated to six places: the
      drops n are the whole number with n <= value * 10^6 < n + 1. */
  lemma ToDropsTruncates(a: string, w: string, f: string, b: string)
    requires AllDigits(w) && AllDigits(f)
    requires forall i :: 0 <= i < |a| ==> IsSpace(a[i])
    requires forall i :: 0 <= i < |b| ==> IsSpace(b[i])
    ensures AllDigits(w + f)
    ensures ToDrops(a + (w + "." + f) + b).Some?
    ensures
      var n := ToDrops(a + (w + "." + f) + b).value;
      n * Power(10, |f|) <= ValueOf(w + f) * DROPS_PER_XRP < (n + 1) * Power(10, |f|)
  {
    hide ToDrops, ValueOf, Power, Six;
    ReadsPlain(a, w, f, b);
    var n := ValueOf(w) * DROPS_PER_XRP + ValueOf(Six(f));
    if |f| <= 6 {
      ShortFraction(w, f);
      PowerPositive(|f|);
      Distribute(n, 1, Power(10, |f|));
    } else {
      LongFraction(w, f);
    }
  }

  /** Showing an amount and reading it back gives the same drops. */
  lemma FormatRoundTrip(drops: nat)
    ensures ToDrops(FormatXrp(drops)) == Some(drops)
  {
    hide ToDrops, ValueOf, Decimal, StripZeros, PadStart, Six;
    var whole, frac := drops / DROPS_PER_XRP, drops % DROPS_PER_XRP;
    DecimalDenotes(whole);
    if frac == 0 {
      ReadsWhole("", Decimal(whole), "");
      assert "" + Decimal(whole) + "" == FormatXrp(drops);
    } else {
      var padded := PadStart(Decimal(frac), 6);
      Million();
      DecimalDenotes(frac);
      DecimalFits(frac, 6);
      PadKeepsValue(Decimal(frac), 6);
      StripThenPad(padded);
      ReadsPlain("", Decimal(whole), StripZeros(padded), "");
      assert "" + (Decimal(whole) + "." + StripZeros(padded)) + "" == FormatXrp(drops);
      SixOf(StripZeros(padded));
    }
  }

  // ---- The form of what is shown ----

  /** Digits before the point, digits after it; no point without a fraction. */
  function Plain(w: string, f: string): string {
    if f == "" then w else w + "." + f
  }

  /** No leading zero beyond a single one, at most six places, no trailing zero after the point. */
  predicate Canonical(w: string, f: string) {
    && AllDigits(w) && AllDigits(f) && w != "" && (|w| > 1 ==> w[0] != '0')
    && |f| <= 6 && (f != "" ==> f[|f| - 1] != '0')
  }

  /** The decimal's value is exactly this many millionths. */
  predicate Denotes(w: string, f: string, drops: nat) {
    AllDigits(w + f) && ValueOf(w + f) * 1_000_000 == drops * Power(10, |f|)
  }

  lemma {:induction false} DecimalLeads(n: nat)
    ensures AllDigits(Decimal(n)) && (n > 0 ==> Decimal(n)[0] != '0') && (|Decimal(n)| > 1 ==> Decimal(n)[0] != '0')
  {
    if n >= 10 {
      DecimalLeads(n / 10);
      assert Decimal(n)[0] == Decimal(n / 10)[0];
    }
  }

  /** Stripping leaves no trailing zero, and nothing at all exactly for zeros. */
  lemma {:induction false} StrippedEnds(s: string)
    requires AllDigits(s)
    ensures StripZeros(s) != "" ==> StripZeros(s)[|StripZeros(s)| - 1] != '0'
    ensures ValueOf(s) == 0 <==> StripZeros(s) == ""
  {
    if s != "" && s[|s| - 1] == '0' {
      StrippedEnds(s[..|s| - 1]);
    }
  }

  lemma {:induction false} SameDigits(s: string, t: string)
    requires AllDigits(s) && AllDigits(t) && |s| == |t| && ValueOf(s) == ValueOf(t)
    ensures s == t
  {
    if s != "" {
      SameDigits(s[..|s| - 1], t[..|t| - 1]);
      assert s == s[..|s| - 1] + [s[|s| - 1]] && t == t[..|t| - 1] + [t[|t| - 1]];
    }
  }

  /** A digit string without a leading zero is the decimal of its value. */
  lemma {:induction false} IsDecimal(w: string)
    requires AllDigits(w) && w != "" && (|w| > 1 ==> w[0] != '0')
    ensures w == Decimal(ValueOf(w)) && (|w| > 1 ==> ValueOf(w) >= 10)
  {
    if |w| > 1 {
      IsDecimal(w[..|w| - 1]);
      LeadPositive(w[..|w| - 1]);
      assert w == w[..|w| - 1] + [w[|w| - 1]];
    } else {
      assert w[..0] == "";
      assert w == [w[0]];
    }
  }

  lemma {:induction false} LeadPositive(w: string)
    requires AllDigits(w) && w != "" && w[0] != '0'
    ensures ValueOf(w) > 0
  {
    if |w| > 1 {
      LeadPositive(w[..|w| - 1]);
    }
  }

  /** What is shown is canonical, and denotes the drops. */
  lemma FormatCanonical(drops: nat)
    ensures exists w, f :: Canonical(w, f) && FormatXrp(drops) == Plain(w, f) && Denotes(w, f, drops)
  {
    hide ValueOf, Decimal, StripZeros, PadStart, Six, Power;
    var whole, frac := drops / DROPS_PER_XRP, drops % DROPS_PER_XRP;
    DecimalLeads(whole);
    DecimalDenotes(whole);
    if frac == 0 {
      NoFraction();
      ShortFraction(Decimal(whole), "");
      assert Canonical(Decimal(whole), "") && Denotes(Decimal(whole), "", drops);
    } else {
      var padded := PadStart(Decimal(frac), 6);
      Million();
      DecimalDenotes(frac);
      DecimalFits(frac, 6);
      PadKeepsValue(Decimal(frac), 6);
      StripThenPad(padded);
      StrippedEnds(padded);
      SixOf(StripZeros(padded));
      ShortFraction(Decimal(whole), StripZeros(padded));
      assert Canonical(Decimal(whole), StripZeros(padded)) && Denotes(Decimal(whole), StripZeros(padded), drops);
    }
  }

  lemma Cancel(a: nat, b: nat, p: nat)
    requires p > 0 && a * p == b * p
    ensures a == b
  {
    if a < b {
      MulLess(a, b, p);
    } else if b < a {
      MulLess(b, a, p);
    }
  }

  lemma MulLess(a: nat, b: nat, p: nat)
    requires a < b && p > 0
    ensures a * p < b * p
  {
  }

  /** The parts of a canonical decimal are the whole and the fractional drops. */
  lemma CanonicalParts(w: string, f: string, drops: nat)
    requires AllDigits(w) && AllDigits(f) && |f| <= 6 && Denotes(w, f, drops)
    ensures AllDigits(Six(f)) && ValueOf(w) == drops / DROPS_PER_XRP && ValueOf(Six(f)) == drops % DROPS_PER_XRP
  {
    hide ValueOf, Six, Power;
    ShortFraction(w, f);
    PowerPositive(|f|);
    Cancel(ValueOf(w) * DROPS_PER_XRP + ValueOf(Six(f)), drops, Power(10, |f|));
    SixOf(f);
    SixLength(f);
    ValueBelow(Six(f));
    Million();
  }

  lemma SixLength(f: string)
    ensures |Six(f)| == 6
  {
  }

  lemma {:induction false} StripsPadding(f: string, k: nat)
    requires f != "" ==> f[|f| - 1] != '0'
    ensures StripZeros(f + ZeroChars(k)) == f
  {
    if k > 0 {
      StripsPadding(f, k - 1);
      assert (f + ZeroChars(k))[..|f| + k - 1] == f + ZeroChars(k - 1);
    } else {
      assert f + ZeroChars(0) == f;
    }
  }

  /** It is the only canonical decimal with that value. */
  lemma OnlyCanonical(w: string, f: string, drops: nat)
    requires Canonical(w, f) && Denotes(w, f, drops)
    ensures Plain(w, f) == FormatXrp(drops)
  {
    hide ValueOf, Decimal, StripZeros, PadStart, Six, Power, Denotes;
    CanonicalParts(w, f, drops);
    IsDecimal(w);
    SixOf(f);
    SixLength(f);
    StripsPadding(f, 6 - |f|);
    var frac := drops % DROPS_PER_XRP;
    if frac == 0 {
      StrippedEnds(Six(f));
    } else {
      Million();
      DecimalDenotes(frac);
      DecimalFits(frac, 6);
      PadKeepsValue(Decimal(frac), 6);
      SameDigits(Six(f), PadStart(Decimal(frac), 6));
      StrippedEnds(Six(f));
    }
  }

  // ---- No plain decimal with that value is shorter ----

  /** Without leading zeros, save one digit. */
  function StripLead(w: string): (r: string)
    ensures |r| <= |w|
  {
    if |w| > 1 && w[0] == '0' then StripLead(w[1..]) else w
  }

  lemma {:induction false} StripLeadKeeps(w: string, f: string)
    requires AllDigits(w) && AllDigits(f) && w != ""
    ensures
      var r := StripLead(w);
      && AllDigits(r) && r != "" && (|r| > 1 ==> r[0] != '0')
      && AllDigits(w + f) && AllDigits(r + f) && ValueOf(r + f) == ValueOf(w + f)
  {
    if |w| > 1 && w[0] == '0' {
      StripLeadKeeps(w[1..], f);
      ZerosAreZero(1);
      ValueAppend(ZeroChars(1), w[1..] + f);
      assert w + f == ZeroChars(1) + (w[1..] + f);
    }
  }

  /** Trailing zeros of the fraction do not change the value. */
  lemma DropsTrailing(w: string, f: string, k: nat, drops: nat)
    requires AllDigits(w) && AllDigits(f) && Denotes(w, f + ZeroChars(k), drops)
    ensures Denotes(w, f, drops)
  {
    hide ValueOf, Power;
    ZerosAreZero(k);
    ValueAppend(w + f, ZeroChars(k));
    assert w + (f + ZeroChars(k)) == (w + f) + ZeroChars(k);
    PowerAdd(|f|, k);
    PowerPositive(k);
    var v, p, q := ValueOf(w + f), Power(10, |f|), Power(10, k);
    calc {
      (v * 1_000_000) * q;
      { Commute(v, 1_000_000, q); }
      (v * q) * 1_000_000;
      drops * (p * q);
      { Scale(drops, p, q); }
      (drops * p) * q;
    }
    Cancel(v * 1_000_000, drops * p, q);
  }

  lemma Commute(a: nat, b: nat, c: nat)
    ensures (a * b) * c == (a * c) * b
  {
  }

  /** A whole number of drops needs no more than six places. */
  lemma SixPlacesDo(w: string, f: string, drops: nat)
    requires AllDigits(w) && AllDigits(f) && Denotes(w, f, drops) && f != "" && f[|f| - 1] != '0'
    ensures |f| <= 6
  {
    hide ValueOf, Power;
    if |f| > 6 {
      var k := |f| - 6;
      Million();
      PowerAdd(k, 6);
      Scale(drops, Power(10, k), 1_000_000);
      Cancel(ValueOf(w + f), drops * Power(10, k), 1_000_000);
      TenTimes(drops, k);
      LastDigit(w, f);
      assert false;
    }
  }

  lemma TenTimes(n: nat, k: nat)
    requires k > 0
    ensures n * Power(10, k) % 10 == 0
  {
    Scale(n, Power(10, k - 1), 10);
  }

  lemma LastDigit(w: string, f: string)
    requires AllDigits(w) && AllDigits(f) && f != "" && f[|f| - 1] != '0'
    ensures AllDigits(w + f) && ValueOf(w + f) % 10 != 0
  {
    assert (w + f)[|w + f| - 1] == f[|f| - 1];
  }

  /** FormatXrp gives the shortest plain decimal with the value of the drops, however many places the other
      has. */
  lemma FormatIsShortest(w: string, f: string, drops: nat)
    requires AllDigits(w) && w != "" && AllDigits(f) && Denotes(w, f, drops)
    ensures |FormatXrp(drops)| <= |Plain(w, f)|
  {
    hide ValueOf, Power, StripZeros, StripLead, FormatXrp;
    StripThenPad(f);
    StrippedEnds(f);
    var short := StripZeros(f);
    DropsTrailing(w, short, |f| - |short|, drops);
    StripLeadKeeps(w, short);
    var whole := StripLead(w);
    assert Denotes(whole, short, drops);
    if short != "" {
      SixPlacesDo(whole, short, drops);
    }
    hide Denotes;
    OnlyCanonical(whole, short, drops);
  }
}
