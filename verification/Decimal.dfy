/** Decimal text: what `strconv` and the `%d` of `fmt` do with integers. */
module Decimal {
  import opened Wrappers

  const MAX_INT64 := 0x7fff_ffff_ffff_ffff
  const MIN_INT64 := -0x8000_0000_0000_0000

  predicate IsDigit(c: char) { '0' <= c <= '9' }

  predicate AllDigits(s: string) {
    forall i :: 0 <= i < |s| ==> IsDigit(s[i])
  }

  function DigitValue(c: char): (v: nat)
    requires IsDigit(c)
    ensures v <= 9
  {
    (c - '0') as nat
  }

  function Digit(d: nat): (c: char)
    requires d <= 9
    ensures IsDigit(c) && DigitValue(c) == d
  {
    '0' + d as char
  }

  function Show(n: nat): (s: string)
    ensures AllDigits(s) && |s| > 0 && (n > 0 ==> s[0] != '0')
  {
    if n < 10 then [Digit(n)] else Show(n / 10) + [Digit(n % 10)]
  }

  function ShowInt(x: int): string {
    if x < 0 then "-" + Show(-x) else Show(x)
  }

  function Number(s: string): nat
    requires AllDigits(s)
  {
    if s == "" then 0 else 10 * Number(s[..|s| - 1]) + DigitValue(s[|s| - 1])
  }

  lemma {:induction false} NumberOfShow(n: nat)
    ensures Number(Show(n)) == n
  {
    if n >= 10 {
      NumberOfShow(n / 10);
      assert Show(n)[..|Show(n)| - 1] == Show(n / 10);
    }
  }

  /** `strconv.ParseInt(s, 10, 64)`, with all errors alike. */
  function ParseInt(s: string): Option<int> {
    var signed := s != "" && (s[0] == '-' || s[0] == '+');
    var digits := if signed then s[1..] else s;
    if digits == "" || !AllDigits(digits) then None
    else
      var n: int := Number(digits);
      var x := if signed && s[0] == '-' then -n else n;
      if MIN_INT64 <= x <= MAX_INT64 then Some(x) else None
  }

  lemma ParseOfDigits(digits: string)
    requires digits != "" && AllDigits(digits)
    ensures ParseInt(digits) == ParseInt("+" + digits) ==
            if Number(digits) <= MAX_INT64 then Some(Number(digits)) else None
    ensures var n: int := -(Number(digits) as int); ParseInt("-" + digits) == if n >= MIN_INT64 then Some(n) else None
  {
    assert IsDigit(digits[0]);
    assert ("-" + digits)[1..] == digits && ("+" + digits)[1..] == digits;
  }

  lemma ParseOfSigned(digits: string, x: int)
    requires digits != "" && AllDigits(digits) && Number(digits) == if x < 0 then -x else x
    ensures ParseInt(if x < 0 then "-" + digits else digits) == if MIN_INT64 <= x <= MAX_INT64 then Some(x) else None
  {
    ParseOfDigits(digits);
  }

  /** Parsing undoes printing, within 64 bits. */
  lemma ParseOfShow(x: int)
    ensures ParseInt(ShowInt(x)) == if MIN_INT64 <= x <= MAX_INT64 then Some(x) else None
  {
    var n := if x < 0 then -x else x;
    NumberOfShow(n);
    ParseOfSigned(Show(n), x);
  }

  /** The text stands for this number: digits, after at most one sign. */
  ghost predicate StandsFor(s: string, digits: string, x: int) {
    && digits != "" && AllDigits(digits)
    && var n: int := Number(digits);
       ((s == digits || s == "+" + digits) && x == n) || (s == "-" + digits && x == -n)
  }

  /** What parses is exactly one or more digits, after at most one sign, for a number within 64 bits. */
  lemma ParseIff(s: string, x: int)
    ensures ParseInt(s) == Some(x) <==>
            MIN_INT64 <= x <= MAX_INT64 && exists digits: string :: StandsFor(s, digits, x)
  {
    var signed := s != "" && (s[0] == '-' || s[0] == '+');
    var digits := if signed then s[1..] else s;
    assert signed ==> s == [s[0]] + digits;
    if ParseInt(s) == Some(x) {
      assert StandsFor(s, digits, x);
    } else {
      forall d: string | StandsFor(s, d, x) ensures !(MIN_INT64 <= x <= MAX_INT64) {
        ParseOfDigits(d);
      }
    }
  }

  // ----- fixed widths

  /** `x` times 10 to the power of `k`. */
  function Shift(x: nat, k: nat): (y: nat)
    ensures y >= x
  {
    if k == 0 then x else 10 * Shift(x, k - 1)
  }

  function Zeros(k: nat): (s: string)
    ensures |s| == k && AllDigits(s)
  {
    seq(k, _ => '0')
  }

  /** The `%0wd` of `fmt`: zeros go between the sign and the digits, and the sign counts for the width. */
  function Pad(x: int, w: nat): string {
    var digits := Show(if x < 0 then -x else x);
    var sign := if x < 0 then "-" else "";
    sign + Zeros(if |sign| + |digits| < w then w - |sign| - |digits| else 0) + digits
  }

  lemma {:induction false} ShowFits(n: nat, w: nat)
    requires w > 0
    ensures |Show(n)| <= w <==> n < Shift(1, w)
  {
    if n >= 10 && w > 1 {
      ShowFits(n / 10, w - 1);
    } else {
      assert Shift(1, w) == 10 * Shift(1, w - 1);
    }
  }

  lemma {:induction false} NumberOfZeros(k: nat, s: string)
    requires AllDigits(s)
    ensures AllDigits(Zeros(k) + s) && Number(Zeros(k) + s) == Number(s)
    decreases k, |s|
  {
    if s != "" {
      NumberOfZeros(k, s[..|s| - 1]);
      assert (Zeros(k) + s)[..|Zeros(k) + s| - 1] == Zeros(k) + s[..|s| - 1];
    } else if k > 0 {
      NumberOfZeros(k - 1, "");
      assert Zeros(k) + s == Zeros(k) && Zeros(k)[..k - 1] == Zeros(k - 1) == Zeros(k - 1) + "";
    } else {
      assert Zeros(k) + s == "";
    }
  }

  /** A padded number has exactly `w` digits, and no more, iff it fits. */
  lemma PadDigitsIff(x: int, w: nat)
    requires w > 0
    ensures AllDigits(Pad(x, w)) && |Pad(x, w)| == w <==> 0 <= x < Shift(1, w)
  {
    ShowFits(if x < 0 then -x else x, w);
    assert x < 0 ==> Pad(x, w)[0] == '-';
  }

  lemma NumberOfPad(n: nat, w: nat)
    ensures AllDigits(Pad(n, w)) && Number(Pad(n, w)) == n
  {
    NumberOfShow(n);
    NumberOfZeros(if |Show(n)| < w then w - |Show(n)| else 0, Show(n));
    assert "" + Zeros(if |Show(n)| < w then w - |Show(n)| else 0) == Zeros(if |Show(n)| < w then w - |Show(n)| else 0);
  }

  lemma ZerosAndShow(n: nat, k: nat)
    ensures var s := Zeros(k) + Show(n); |s| == k + |Show(n)| && AllDigits(s) && s != "" && Number(s) == n
  {
    NumberOfShow(n);
    NumberOfZeros(k, Show(n));
  }

  lemma PadOfNatural(n: nat, w: nat)
    ensures |Pad(n, w)| == (if |Show(n)| < w then w else |Show(n)|) && StandsFor(Pad(n, w), Pad(n, w), n)
  {
    var k := if |Show(n)| < w then w - |Show(n)| else 0;
    ZerosAndShow(n, k);
    assert Pad(n, w) == "" + Zeros(k) + Show(n) == Zeros(k) + Show(n);
  }

  lemma PadOfNegative(x: int, w: nat)
    requires x < 0
    ensures |Pad(x, w)| == (if 1 + |Show(-x)| < w then w else 1 + |Show(-x)|)
    ensures StandsFor(Pad(x, w), Pad(x, w)[1..], x)
  {
    var k := if 1 + |Show(-x)| < w then w - 1 - |Show(-x)| else 0;
    ZerosAndShow(-x, k);
    assert Pad(x, w) == "-" + Zeros(k) + Show(-x) == "-" + (Zeros(k) + Show(-x));
  }

  /** A padded number is as wide as asked, or as the number needs, and still stands for it. */
  lemma PadIs(x: int, w: nat)
    ensures |Pad(x, w)| == if |ShowInt(x)| < w then w else |ShowInt(x)|
    ensures exists digits :: StandsFor(Pad(x, w), digits, x)
  {
    if x < 0 {
      PadOfNegative(x, w);
    } else {
      PadOfNatural(x, w);
    }
  }

  lemma {:induction false} NumberOfConcat(s: string, t: string)
    requires AllDigits(s) && AllDigits(t)
    ensures AllDigits(s + t) && Number(s + t) == Shift(Number(s), |t|) + Number(t)
    decreases |t|
  {
    if t == "" {
      assert s + t == s;
    } else {
      var n := |t| - 1;
      NumberOfConcat(s, t[..n]);
      assert (s + t)[..|s + t| - 1] == s + t[..n];
    }
  }
}
