/** Printing a base-unit quantity as a decimal, and reading it back. */
module DecimalPrinter {
  import opened FixedPoint

  predicate IsDigit(c: char) { '0' <= c <= '9' }

  predicate AllDigits(s: string) { forall i :: 0 <= i < |s| ==> IsDigit(s[i]) }

  function DigitChar(d: nat): (c: char)
    requires d < 10
    ensures IsDigit(c)
  {
    ('0' as int + d) as char
  }

  function DigitValue(c: char): nat
    requires IsDigit(c)
  {
    c as int - '0' as int
  }

  /** `v.toString()`. */
  function Digits(v: nat): (s: string)
    ensures |s| > 0 && AllDigits(s)
  {
    if v < 10 then [DigitChar(v)] else Digits(v / 10) + [DigitChar(v % 10)]
  }

  /** The number a string of digits stands for. */
  function Number(s: string): nat
    requires AllDigits(s)
  {
    if s == "" then 0 else 10 * Number(s[..|s| - 1]) + DigitValue(s[|s| - 1])
  }

  function Zeros(n: nat): (s: string)
    ensures |s| == n && forall i :: 0 <= i < n ==> s[i] == '0'
  {
    seq(n, _ => '0')
  }

  /** `padStart(width, "0")`. */
  function PadStart(s: string, width: nat): string {
    if |s| >= width then s else Zeros(width - |s|) + s
  }

  /** `replace(/0+$/, "")`. */
  function StripZeros(s: string): (r: string)
    ensures |r| <= |s| && r == s[..|r|]
    ensures forall i :: |r| <= i < |s| ==> s[i] == '0'
    ensures r != "" ==> r[|r| - 1] != '0'
  {
    if s != "" && s[|s| - 1] == '0' then StripZeros(s[..|s| - 1]) else s
  }

  function FormatBase(v: nat, decimals: nat): string {
    var s := PadStart(Digits(v), decimals + 1);
    var i := s[..|s| - decimals];
    var f := StripZeros(s[|s| - decimals..]);
    if f != "" then i + "." + f else i
  }

  // ---------- reading back ----------

  datatype Decimal = Decimal(whole: string, fraction: string)

  /** Splits at the first point. */
  function Split(s: string): Decimal {
    if s == "" then Decimal("", "")
    else if s[0] == '.' then Decimal("", s[1..])
    else
      var rest := Split(s[1..]);
      rest.(whole := [s[0]] + rest.whole)
  }

  /** A decimal with at most `decimals` digits after the point, in base units. */
  function Scaled(d: Decimal, decimals: nat): nat
    requires AllDigits(d.whole) && AllDigits(d.fraction) && |d.fraction| <= decimals
  {
    Times(Number(d.whole), Pow10(decimals)) + Times(Number(d.fraction), Pow10(decimals - |d.fraction|))
  }

  lemma {:induction false} SplitJoined(i: string, f: string)
    requires AllDigits(i)
    ensures Split(i + "." + f) == Decimal(i, f) && Split(i) == Decimal(i, "")
  {
    if i == "" {
      assert i + "." + f == "." + f;
    } else {
      SplitJoined(i[1..], f);
      assert (i + "." + f)[1..] == i[1..] + "." + f;
    }
  }

  lemma {:induction false} DigitsNumber(v: nat)
    ensures Number(Digits(v)) == v
  {
    if v < 10 {
      assert [DigitChar(v)][..0] == "";
    } else {
      DigitsNumber(v / 10);
      assert Digits(v)[..|Digits(v)| - 1] == Digits(v / 10);
    }
  }

  lemma {:induction false} NumberJoined(a: string, b: string)
    requires AllDigits(a) && AllDigits(b)
    ensures AllDigits(a + b) && Number(a + b) == Times(Number(a), Pow10(|b|)) + Number(b)
  {
    if b == "" {
      assert a + b == a;
    } else {
      var pre := b[..|b| - 1];
      NumberJoined(a, pre);
      assert (a + b)[..|a + b| - 1] == a + pre;
      assert Number(a) * (10 * Pow10(|pre|)) == 10 * (Number(a) * Pow10(|pre|));
    }
  }

  lemma {:induction false} ZerosNumber(s: string)
    requires forall i :: 0 <= i < |s| ==> s[i] == '0'
    ensures AllDigits(s) && Number(s) == 0
  {
    if s == "" {
    } else {
      ZerosNumber(s[..|s| - 1]);
    }
  }

  lemma PadNumber(v: nat, width: nat)
    ensures var s := PadStart(Digits(v), width);
            |s| >= width && |s| > 0 && AllDigits(s) && Number(s) == v
  {
    DigitsNumber(v);
    if |Digits(v)| < width {
      ZerosNumber(Zeros(width - |Digits(v)|));
      NumberJoined(Zeros(width - |Digits(v)|), Digits(v));
    }
  }

  lemma StripNumber(f: string)
    requires AllDigits(f)
    ensures var r := StripZeros(f);
            AllDigits(r) && Number(f) == Times(Number(r), Pow10(|f| - |r|))
  {
    var r := StripZeros(f);
    assert f == r + f[|r|..];
    ZerosNumber(f[|r|..]);
    NumberJoined(r, f[|r|..]);
  }

  /** Cutting `decimals` digits off a number and stripping zeros there keeps the number. */
  lemma CutAndStrip(s: string, decimals: nat)
    requires AllDigits(s) && |s| > decimals
    ensures var d := Decimal(s[..|s| - decimals], StripZeros(s[|s| - decimals..]));
            && AllDigits(d.whole) && AllDigits(d.fraction) && |d.fraction| <= decimals && d.whole != ""
            && Scaled(d, decimals) == Number(s)
  {
    var i, full := s[..|s| - decimals], s[|s| - decimals..];
    assert s == i + full;
    NumberJoined(i, full);
    StripNumber(full);
  }

  /** The text is a decimal that stands for `v` base units, with no more digits after the point than
      the token has, no trailing zero there, and a digit before it. */
  predicate ReadsAs(text: string, decimals: nat, v: nat) {
    var d := Split(text);
    && AllDigits(d.whole) && AllDigits(d.fraction) && |d.fraction| <= decimals
    && Scaled(d, decimals) == v
    && d.whole != "" && (d.fraction != "" ==> d.fraction[|d.fraction| - 1] != '0')
  }

  /** What is printed reads back as the quantity itself. */
  lemma FormatBaseRoundTrip(v: nat, decimals: nat)
    ensures ReadsAs(FormatBase(v, decimals), decimals, v)
  {
    var s := PadStart(Digits(v), decimals + 1);
    PadNumber(v, decimals + 1);
    CutAndStrip(s, decimals);
    SplitJoined(s[..|s| - decimals], StripZeros(s[|s| - decimals..]));
  }

  /** So two quantities never print alike. */
  lemma FormatBaseInjective(v: nat, w: nat, decimals: nat)
    requires FormatBase(v, decimals) == FormatBase(w, decimals)
    ensures v == w
  {
    FormatBaseRoundTrip(v, decimals);
    FormatBaseRoundTrip(w, decimals);
  }
}
