/**
  Decimal text for money amounts: PHP's `number_format($x, 0, ',', '.')` as used by every
  "Rp " accessor of the models, plus the reading-back functions that specify it.

  Amounts are integer cents (the database columns are decimal with two places).
*/
module NumberFormat {
  import opened Wrappers

  predicate IsDigit(c: char) {
    '0' <= c <= '9'
  }

  predicate AllDigits(s: string) {
    forall i :: 0 <= i < |s| ==> IsDigit(s[i])
  }

  lemma AllDigitsSlice(s: string, lo: nat, hi: nat)
    requires AllDigits(s) && lo <= hi <= |s|
    ensures AllDigits(s[lo..hi])
  {
    forall i | 0 <= i < hi - lo
      ensures IsDigit(s[lo..hi][i])
    {
      assert s[lo..hi][i] == s[lo + i];
    }
  }

  lemma AllDigitsConcat(a: string, b: string)
    requires AllDigits(a) && AllDigits(b)
    ensures AllDigits(a + b)
  {
  }

  /** The three parts of a concatenation are its slices at the part boundaries. */
  lemma ConcatParts(a: string, b: string, c: string)
    ensures (a + b + c)[..|a|] == a
    ensures (a + b + c)[|a|..|a| + |b|] == b
    ensures (a + b + c)[|a| + |b|..] == c
  {
  }

  function DigitValue(c: char): nat
    requires IsDigit(c)
  {
    c as int - '0' as int
  }

  function DigitChar(d: nat): (c: char)
    requires d < 10
    ensures IsDigit(c) && DigitValue(c) == d
  {
    ('0' as int + d) as char
  }

  function Pow10(k: nat): (p: nat)
    ensures p >= 1
  {
    if k == 0 then 1 else 10 * Pow10(k - 1)
  }

  /** The number a string of decimal digits denotes (most significant digit first). */
  function Value(s: string): nat
    requires AllDigits(s)
  {
    if s == [] then 0 else Value(s[..|s| - 1]) * 10 + DigitValue(s[|s| - 1])
  }

  /** The shortest decimal spelling of `n`: "0" for zero, and no leading zero otherwise. */
  function Digits(n: nat): (s: string)
    ensures |s| >= 1 && AllDigits(s)
    ensures Value(s) == n
    ensures |s| > 1 ==> s[0] != '0'
  {
    if n < 10 then [DigitChar(n)]
    else
      var s := Digits(n / 10) + [DigitChar(n % 10)];
      assert s[..|s| - 1] == Digits(n / 10);
      s
  }

  lemma {:induction false} DigitsLength(n: nat, w: nat)
    requires w >= 1 && n < Pow10(w)
    ensures |Digits(n)| <= w
  {
    if n >= 10 {
      assert Pow10(1) == 10;
      assert w != 1;
      DigitsLength(n / 10, w - 1);
    }
  }

  /** Left-pads `s` with '0' up to `width` characters; longer strings are kept whole. */
  function PadLeft(s: string, width: nat): (r: string)
    ensures |r| == if |s| >= width then |s| else width
    ensures r[|r| - |s|..] == s
    ensures forall i :: 0 <= i < |r| - |s| ==> r[i] == '0'
    decreases width - |s|
  {
    if |s| >= width then s else PadLeft(['0'] + s, width)
  }

  lemma Distribute(va: int, p: int, vb: int, d: int)
    ensures (va * p + vb) * 10 + d == va * (p * 10) + (vb * 10 + d)
  {
  }

  lemma {:induction false} ValueConcat(a: string, b: string)
    requires AllDigits(a) && AllDigits(b)
    ensures AllDigits(a + b)
    ensures Value(a + b) == Value(a) * Pow10(|b|) + Value(b)
  {
    if b == [] {
      assert a + b == a;
    } else {
      var b' := b[..|b| - 1];
      var ab := a + b;
      assert ab[..|ab| - 1] == a + b';
      assert ab[|ab| - 1] == b[|b| - 1];
      ValueConcat(a, b');
      Distribute(Value(a), Pow10(|b'|), Value(b'), DigitValue(b[|b| - 1]));
    }
  }

  lemma {:induction false} ZerosValue(z: string)
    requires forall i :: 0 <= i < |z| ==> z[i] == '0'
    ensures AllDigits(z) && Value(z) == 0
  {
    if z != [] {
      ZerosValue(z[..|z| - 1]);
    }
  }

  /** Padding with zeros does not change the number a digit string denotes. */
  lemma PadLeftValue(s: string, width: nat)
    requires AllDigits(s)
    ensures AllDigits(PadLeft(s, width)) && Value(PadLeft(s, width)) == Value(s)
  {
    var r := PadLeft(s, width);
    var z := r[..|r| - |s|];
    assert r == z + s;
    ZerosValue(z);
    ValueConcat(z, s);
  }

  /** The three digits of a group below the leading one, e.g. 5 -> "005". */
  function Group3(k: nat): (g: string)
    requires k < 1000
    ensures |g| == 3 && AllDigits(g) && Value(g) == k
  {
    var g := [DigitChar(k / 100), DigitChar(k / 10 % 10), DigitChar(k % 10)];
    assert g[..2][..1] == [g[0]];
    assert Value([g[0]]) == k / 100;
    assert Value(g[..2]) == k / 100 * 10 + k / 10 % 10;
    g
  }

  /** The string with every '.' removed: reading a grouped number back. */
  function StripDots(s: string): (r: string)
    ensures forall i :: 0 <= i < |r| ==> r[i] != '.'
  {
    if s == [] then []
    else (if s[0] == '.' then [] else [s[0]]) + StripDots(s[1..])
  }

  lemma {:induction false} StripDotsConcat(a: string, b: string)
    ensures StripDots(a + b) == StripDots(a) + StripDots(b)
  {
    if a != [] {
      assert (a + b)[1..] == a[1..] + b;
      StripDotsConcat(a[1..], b);
    } else {
      assert a + b == b;
    }
  }

  lemma {:induction false} StripDotsOfDigits(s: string)
    requires AllDigits(s)
    ensures StripDots(s) == s
  {
    if s != [] {
      StripDotsOfDigits(s[1..]);
    }
  }

  /**
    `g` spells `n` in thousands groups: its characters other than '.' are the shortest
    decimal spelling of `n`, and a '.' stands exactly before each complete group of three
    digits counted from the right.
  */
  predicate GroupedDigits(g: string, n: nat) {
    && StripDots(g) == Digits(n)
    && |g| == |Digits(n)| + (|Digits(n)| - 1) / 3
    && forall i :: 0 <= i < |g| ==> (g[i] == '.' <==> (|g| - i) % 4 == 0)
  }

  /** Below 1000 the plain digits are already grouped. */
  lemma SmallGroup(n: nat)
    requires n < 1000
    ensures GroupedDigits(Digits(n), n)
  {
    var g := Digits(n);
    StripDotsOfDigits(g);
    assert Pow10(3) == 1000;
    DigitsLength(n, 3);
    forall i | 0 <= i < |g|
      ensures g[i] == '.' <==> (|g| - i) % 4 == 0
    {
      assert IsDigit(g[i]);
    }
  }

  lemma DivMod10(x: nat, y: nat, d: nat)
    requires d < 10 && x == 10 * y + d
    ensures x / 10 == y && x % 10 == d
  {
  }

  /** The last three digits of `n >= 1000` are the group of `n % 1000`. */
  lemma DigitsSplit(n: nat)
    requires n >= 1000
    ensures Digits(n) == Digits(n / 1000) + Group3(n % 1000)
  {
    var q, k := n / 1000, n % 1000;
    var a, r := k / 100, k % 100;
    var b, c := r / 10, r % 10;
    DivMod10(n, 100 * q + 10 * a + b, c);
    DivMod10(100 * q + 10 * a + b, 10 * q + a, b);
    DivMod10(10 * q + a, q, a);
    DivMod10(k, 10 * a + b, c);
    DivMod10(10 * a + b, a, b);
    assert Digits(n) == Digits(n / 10) + [DigitChar(c)];
    assert Digits(n / 10) == Digits(n / 10 / 10) + [DigitChar(b)];
    assert Digits(n / 10 / 10) == Digits(q) + [DigitChar(a)];
    assert Group3(k) == [DigitChar(a), DigitChar(b), DigitChar(c)];
  }

  /** Joining with a '.' keeps the digits of both sides. */
  lemma JoinStrip(head: string, t: string)
    requires AllDigits(t)
    ensures StripDots(head + "." + t) == StripDots(head) + t
  {
    StripDotsConcat(head + ".", t);
    StripDotsConcat(head, ".");
    StripDotsOfDigits(t);
    assert StripDots(".") == [];
  }

  /** Joining a grouped head and three digits with a '.' keeps every '.' four places from the right. */
  lemma JoinDots(head: string, t: string)
    requires |t| == 3 && AllDigits(t)
    requires forall i :: 0 <= i < |head| ==> (head[i] == '.' <==> (|head| - i) % 4 == 0)
    ensures forall i :: 0 <= i < |head| + 4 ==> ((head + "." + t)[i] == '.' <==> (|head| + 4 - i) % 4 == 0)
  {
    var g := head + "." + t;
    forall i | 0 <= i < |head| + 4
      ensures g[i] == '.' <==> (|head| + 4 - i) % 4 == 0
    {
      if i < |head| {
        assert g[i] == head[i];
        assert |head| + 4 - i == (|head| - i) + 4;
      } else if i > |head| {
        assert g[i] == t[i - |head| - 1];
        assert IsDigit(t[i - |head| - 1]);
      }
    }
  }

  /** A grouped head, a '.' and the last group of three spell `n` in groups. */
  lemma GroupStep(n: nat, head: string)
    requires n >= 1000 && GroupedDigits(head, n / 1000)
    ensures GroupedDigits(head + "." + Group3(n % 1000), n)
  {
    var t := Group3(n % 1000);
    DigitsSplit(n);
    JoinStrip(head, t);
    JoinDots(head, t);
    var d := |Digits(n / 1000)|;
    assert |Digits(n)| == d + 3;
    assert |head + "." + t| == |head| + 4;
  }

  /** A non-negative integer with its thousands separated by '.', e.g. 1234567 -> "1.234.567". */
  function Grouped(n: nat): (s: string)
    ensures |s| >= 1 && IsDigit(s[0])
    ensures GroupedDigits(s, n)
  {
    if n < 1000 then
      SmallGroup(n);
      Digits(n)
    else
      var head := Grouped(n / 1000);
      GroupStep(n, head);
      head + "." + Group3(n % 1000)
  }

  /** Strings with their '.'s in the same places and the same other characters are equal. */
  lemma {:induction false} StripDotsInjective(a: string, b: string)
    requires |a| == |b|
    requires forall i :: 0 <= i < |a| ==> (a[i] == '.' <==> b[i] == '.')
    requires StripDots(a) == StripDots(b)
    ensures a == b
  {
    if a != [] {
      forall i | 0 <= i < |a| - 1
        ensures a[1..][i] == '.' <==> b[1..][i] == '.'
      {
        assert a[1..][i] == a[i + 1] && b[1..][i] == b[i + 1];
      }
      if a[0] == '.' {
        assert StripDots(a) == StripDots(a[1..]);
        assert StripDots(b) == StripDots(b[1..]);
      } else {
        assert StripDots(a) == [a[0]] + StripDots(a[1..]);
        assert StripDots(b) == [b[0]] + StripDots(b[1..]);
        assert StripDots(a)[0] == a[0] && StripDots(b)[0] == b[0];
        assert StripDots(a)[1..] == StripDots(a[1..]) && StripDots(b)[1..] == StripDots(b[1..]);
      }
      StripDotsInjective(a[1..], b[1..]);
      assert a == [a[0]] + a[1..] && b == [b[0]] + b[1..];
    }
  }

  /** The grouping pins the text down: `Grouped(n)` is the only string that spells `n` in groups. */
  lemma GroupedDigitsUnique(g: string, n: nat)
    ensures GroupedDigits(g, n) <==> g == Grouped(n)
  {
    if GroupedDigits(g, n) {
      StripDotsInjective(g, Grouped(n));
    }
  }

  /** `round()` to whole units, half away from zero, of an amount in cents. */
  function RoundedUnits(cents: int): (u: int)
    ensures cents >= 0 ==> u >= 0 && 100 * u - 50 <= cents < 100 * u + 50
    ensures cents < 0 ==> u <= 0 && 100 * u - 50 < cents <= 100 * u + 50
  {
    if cents >= 0 then (cents + 50) / 100 else -((-cents + 50) / 100)
  }

  /** `number_format($x, 0, ',', '.')`: whole units, '.' between thousands, '-' only for a non-zero negative. */
  function FormatUnits(cents: int): (r: string)
    ensures RoundedUnits(cents) >= 0 ==> GroupedDigits(r, RoundedUnits(cents))
    ensures RoundedUnits(cents) < 0 ==> |r| >= 1 && r[0] == '-' && GroupedDigits(r[1..], -RoundedUnits(cents))
  {
    var u := RoundedUnits(cents);
    if u < 0 then
      var g := Grouped(-u);
      assert ("-" + g)[1..] == g;
      "-" + g
    else Grouped(u)
  }

  /**
    `r` is the "Rp " text of `cents`: the prefix, then a '-' exactly when the rounded
    amount is negative, then the rounded magnitude in thousands groups.
  */
  predicate RupiahText(r: string, cents: int) {
    var u := RoundedUnits(cents);
    && |r| >= 3 && r[..3] == "Rp "
    && if u < 0 then |r| >= 4 && r[3] == '-' && GroupedDigits(r[4..], -u)
       else GroupedDigits(r[3..], u)
  }

  /** The "Rp " money text of the model accessors. */
  function Rupiah(cents: int): (r: string)
    ensures RupiahText(r, cents)
  {
    var f := FormatUnits(cents);
    var r := "Rp " + f;
    assert r[..3] == "Rp " && r[3..] == f;
    assert |f| >= 1 ==> r[4..] == f[1..];
    r
  }

  /** Only the grouped spelling is accepted: "Rp 9500" and "Rp 09.5.00" are not the text of 9500 rupiah. */
  lemma UngroupedTextRejected()
    ensures !RupiahText("Rp 9500", 950000)
    ensures !RupiahText("Rp 09.5.00", 950000)
  {
    assert RoundedUnits(950000) == 9500;
    GroupedExample();
    GroupedDigitsUnique("9500", 9500);
    GroupedDigitsUnique("09.5.00", 9500);
    assert "Rp 9500"[3..] == "9500" && "Rp 09.5.00"[3..] == "09.5.00";
  }

  /** A grouped magnitude starting with a digit has a non-empty digit string behind its separators. */
  lemma StripDotsNonEmpty(g: string)
    requires |g| >= 1 && IsDigit(g[0])
    ensures |StripDots(g)| >= 1
  {
    assert StripDots(g) == [g[0]] + StripDots(g[1..]);
  }

  /** The grouped text of `n` reads back to `n`. */
  lemma GroupedMagnitude(n: nat)
    ensures ParseMagnitude(Grouped(n)) == Some(n)
  {
    StripDotsNonEmpty(Grouped(n));
  }

  /** Reading back "Rp " and a magnitude. */
  lemma ParseUnsigned(g: string, v: nat)
    requires |g| >= 1 && IsDigit(g[0]) && ParseMagnitude(g) == Some(v)
    ensures ParseRupiah("Rp " + g) == Some(v)
  {
    var s := "Rp " + g;
    assert s[..3] == "Rp " && s[3..] == g && s[3] == g[0];
  }

  /** Reading back "Rp -" and a magnitude. */
  lemma ParseNegative(g: string, v: nat)
    requires |g| >= 1 && IsDigit(g[0]) && ParseMagnitude(g) == Some(v)
    ensures ParseRupiah("Rp " + ("-" + g)) == Some(-(v as int))
  {
    var s := "Rp " + ("-" + g);
    assert s[..3] == "Rp " && s[3] == '-' && s[4..] == g;
  }

  /** Reading the "Rp " text back gives the rounded amount: the text loses only the cents. */
  lemma RupiahRoundTrip(cents: int)
    ensures ParseRupiah(Rupiah(cents)) == Some(RoundedUnits(cents))
  {
    var u := RoundedUnits(cents);
    if u < 0 {
      RupiahNegative(cents, -u);
    } else {
      RupiahNonNegative(cents, u);
    }
  }

  lemma RupiahNegative(cents: int, m: nat)
    requires m > 0 && RoundedUnits(cents) == -(m as int)
    ensures ParseRupiah(Rupiah(cents)) == Some(-(m as int))
  {
    GroupedMagnitude(m);
    var g := Grouped(m);
    assert FormatUnits(cents) == "-" + g;
    ParseNegative(g, m);
  }

  lemma RupiahNonNegative(cents: int, m: nat)
    requires RoundedUnits(cents) == m
    ensures ParseRupiah(Rupiah(cents)) == Some(m)
  {
    GroupedMagnitude(m);
    var g := Grouped(m);
    assert FormatUnits(cents) == g;
    ParseUnsigned(g, m);
  }

  /** Reads a grouped magnitude back: the number its digits spell once the '.' separators are removed. */
  function ParseMagnitude(t: string): Option<nat> {
    var digits := StripDots(t);
    if |digits| == 0 || !AllDigits(digits) then None else Some(Value(digits))
  }

  /** Reads an "Rp " text back to the signed whole-unit amount it shows. */
  function ParseRupiah(s: string): Option<int> {
    if |s| < 3 || s[..3] != "Rp " then None
    else if |s| > 3 && s[3] == '-' then
      match ParseMagnitude(s[4..])
      case Some(m) => Some(-(m as int))
      case None => None
    else
      match ParseMagnitude(s[3..])
      case Some(m) => Some(m)
      case None => None
  }

  /** 9500 in groups is "9.500". */
  lemma GroupedExample()
    ensures Grouped(9500) == "9.500"
  {
    assert Grouped(9) == "9";
    assert Group3(500) == "500";
    assert Grouped(9500) == Grouped(9) + "." + Group3(500);
  }

  /** 9500 rupiah is shown as "Rp 9.500". */
  lemma RupiahExample()
    ensures Rupiah(950000) == "Rp 9.500"
  {
    assert RoundedUnits(950000) == 9500;
    GroupedExample();
    assert FormatUnits(950000) == Grouped(9500);
  }
}
