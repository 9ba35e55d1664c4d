/** utils/regx/id.go: the check digit of identity numbers. A string is a sequence of bytes here; whether the eight
  * characters of the birthday are a date up to this year is a parameter. */
module IdCheck {
  import opened Decimal

  const FACTOR := [7, 9, 10, 5, 8, 4, 2, 1, 6, 3, 7, 9, 10, 5, 8, 4, 2]
  const VERIFY := "10X98765432"

  const AREAS := {"11", "12", "13", "14", "15", "21", "22", "23", "31", "32", "33", "34", "35", "36", "37",
                  "41", "42", "43", "44", "45", "46", "50", "51", "52", "53", "54", "61", "62", "63", "64", "65",
                  "71", "81", "82", "91"}

  /** `strconv.Atoi` of one byte, with the error ignored. */
  function Value(c: char): (v: nat)
    ensures v <= 9
  {
    if IsDigit(c) then DigitValue(c) else 0
  }

  function Upper(c: char): char {
    if 'a' <= c <= 'z' then c - 'a' + 'A' else c
  }

  /** The codes of the areas, as numbers. */
  predicate IsArea(n: int) {
    || 11 <= n <= 15 || 21 <= n <= 23 || 31 <= n <= 37 || 41 <= n <= 46 || 50 <= n <= 54 || 61 <= n <= 65
    || n == 71 || 81 <= n <= 82 || n == 91
  }

  lemma AreasAre(s: string)
    ensures s in AREAS <==> |s| == 2 && IsDigit(s[0]) && IsDigit(s[1]) && IsArea(10 * Value(s[0]) + Value(s[1]))
  {
    if |s| == 2 {
      assert s == [s[0], s[1]];
    }
  }

  /** A digit has the value it shows, anything else counts as zero; an X at the end is worth 10. */
  lemma ValuesAre(c: char)
    ensures if IsDigit(c) then c == '0' + Value(c) as char else Value(c) == 0
    ensures CheckValue(c) == if IsDigit(c) then Value(c) else if c in "xX" then 10 else -1
  {
  }

  /** The checksum of the first `n` characters. */
  function Sum(id: string, n: nat): nat
    requires n <= |id| && n <= 17
  {
    if n == 0 then 0 else Sum(id, n - 1) + Value(id[n - 1]) * FACTOR[n - 1]
  }

  /** The check step. */
  predicate Passes(id: string)
    requires |id| == 18
  {
    Upper(id[17]) == Upper(VERIFY[Sum(id, 17) % 11])
  }

  // ----- ISO 7064, MOD 11-2

  /** `a` times 2 to the power of `k`. */
  function Double(a: int, k: nat): int {
    if k == 0 then a else 2 * Double(a, k - 1)
  }

  /** The value of a check character: X stands for 10; other characters are none. */
  function CheckValue(c: char): (v: int)
    ensures -1 <= v <= 10
  {
    if IsDigit(c) then DigitValue(c) else if c == 'X' || c == 'x' then 10 else -1
  }

  /** The sum of the first `n` digits, each times 2 to the power of its distance from the end. */
  function Weighted(id: string, n: nat): int
    requires n <= |id| && n <= 17
  {
    if n == 0 then 0 else Weighted(id, n - 1) + Double(Value(id[n - 1]), 18 - n)
  }

  /** Of 2 x, 11 divides only what it divides of x. */
  lemma HalfMultiple(x: int, q: int) returns (p: int)
    requires 2 * x == 11 * q
    ensures x == 11 * p
  {
    p := x - 5 * q;
  }

  lemma SmallMultiple(x: int, q: int)
    requires -11 < x < 11 && x == 11 * q
    ensures x == 0
  {
  }

  lemma ModShift(x: int, q: int)
    ensures (x + 11 * q) % 11 == x % 11
  {
  }

  /** Each factor of the table is twice the next one, up to a multiple of 11; so they stand for the powers of 2. */
  lemma {:induction false} FactorsArePowers(v: nat, i: nat) returns (q: int)
    requires i < 17
    ensures Double(v, 17 - i) == v * FACTOR[i] + 11 * q
    decreases 17 - i
  {
    if i == 16 {
      assert Double(v, 1) == 2 * Double(v, 0);
      q := 0;
    } else {
      var p := FactorsArePowers(v, i + 1);
      var f := FACTOR[i + 1];
      if 2 * f == FACTOR[i] {
        assert v * (2 * f) == 2 * (v * f);
        q := 2 * p;
      } else {
        assert 2 * f == FACTOR[i] + 11;
        assert v * (FACTOR[i] + 11) == v * FACTOR[i] + 11 * v && v * (2 * f) == 2 * (v * f);
        q := 2 * p + v;
      }
    }
  }

  lemma {:induction false} SumIsWeighted(id: string, n: nat) returns (q: int)
    requires n <= |id| && n <= 17
    ensures Weighted(id, n) == Sum(id, n) + 11 * q
  {
    q := 0;
    if n == 0 {
    } else {
      q := SumIsWeighted(id, n - 1);
      var p := FactorsArePowers(Value(id[n - 1]), n - 1);
      q := q + p;
    }
  }

  /** The check character for a checksum, and its value. */
  lemma VerifyValue(m: nat, c: char)
    requires m < 11
    ensures Upper(c) == Upper(VERIFY[m]) <==> CheckValue(c) == if m < 2 then 1 - m else 12 - m
  {
  }

  lemma CheckSumIff(s: nat, c: int)
    requires 0 <= c <= 10
    ensures (s + c) % 11 == 1 <==> c == var m := s % 11; if m < 2 then 1 - m else 12 - m
  {
    ModShift(s % 11 + c, s / 11);
  }

  /** Main result: the check step is the congruence of ISO 7064 MOD 11-2, for any 18 characters. */
  lemma PassesIff(id: string)
    requires |id| == 18
    ensures Passes(id) <==> CheckValue(id[17]) >= 0 && (Weighted(id, 17) + CheckValue(id[17])) % 11 == 1
  {
    var q := SumIsWeighted(id, 17);
    var s, c := Sum(id, 17), CheckValue(id[17]);
    VerifyValue(s % 11, id[17]);
    ModShift(s + c, q);
    if c >= 0 {
      CheckSumIff(s, c);
    }
  }

  // ----- errors that are caught

  /** Two numbers that pass have sums that differ by a multiple of 11. */
  lemma BothPassIff(id: string, other: string) returns (q: int)
    requires |id| == 18 && |other| == 18 && Passes(id)
    ensures var d := Weighted(other, 17) + CheckValue(other[17]) - Weighted(id, 17) - CheckValue(id[17]);
            && (Passes(other) ==> d == 11 * q)
            && forall p :: CheckValue(other[17]) >= 0 && d == 11 * p ==> Passes(other)
  {
    PassesIff(id);
    PassesIff(other);
    var x := Weighted(id, 17) + CheckValue(id[17]);
    var y := Weighted(other, 17) + CheckValue(other[17]);
    q := y / 11 - x / 11;
    forall p | y - x == 11 * p ensures x % 11 == y % 11 {
      ModShift(x, p);
    }
  }

  lemma {:induction false} DoubleMinus(a: int, b: int, k: nat)
    ensures Double(a, k) - Double(b, k) == Double(a - b, k)
  {
    if k == 0 {
    } else {
      DoubleMinus(a, b, k - 1);
    }
  }

  lemma {:induction false} DoubleNegated(a: int, k: nat)
    ensures Double(-a, k) == -Double(a, k)
  {
    if k == 0 {
    } else {
      DoubleNegated(a, k - 1);
    }
  }

  lemma {:induction false} DoubleTwice(a: int, k: nat, m: nat)
    ensures Double(Double(a, k), m) == Double(a, k + m)
  {
    if m == 0 {
    } else {
      DoubleTwice(a, k, m - 1);
    }
  }

  /** 2 is a unit modulo 11. */
  lemma {:induction false} HalfAll(a: int, k: nat, q: int) returns (p: int)
    requires Double(a, k) == 11 * q
    ensures a == 11 * p
  {
    p := q;
    if k == 0 {
    } else {
      p := HalfMultiple(Double(a, k - 1), q);
      p := HalfAll(a, k - 1, p);
    }
  }

  lemma {:induction false} DoubleMultiple(p: int, k: nat)
    ensures Double(11 * p, k) == 11 * Double(p, k)
  {
    if k == 0 {
    } else {
      DoubleMultiple(p, k - 1);
    }
  }

  lemma {:induction false} WeightedOfChange(id: string, i: nat, c: char, n: nat)
    requires i < |id| && n <= |id| && n <= 17
    ensures Weighted(id[i := c], n) == Weighted(id, n) + if i < n then Double(Value(c) - Value(id[i]), 17 - i) else 0
  {
    if n == 0 {
    } else {
      WeightedOfChange(id, i, c, n - 1);
      DoubleMinus(Value(c), Value(id[n - 1]), 18 - n);
    }
  }

  /** Of a number that passes, one of the first 17 characters can be changed only into one of the same value. */
  lemma ChangedDigitPassesIff(id: string, i: nat, c: char)
    requires |id| == 18 && Passes(id) && i < 17
    ensures Passes(id[i := c]) <==> Value(c) == Value(id[i])
  {
    var d := Value(c) - Value(id[i]);
    WeightedOfChange(id, i, c, 17);
    DoubleMultiple(0, 17 - i);
    PassesIff(id);
    var q := BothPassIff(id, id[i := c]);
    if Passes(id[i := c]) {
      var p := HalfAll(d, 17 - i, q);
      SmallMultiple(d, p);
    }
  }

  /** And the check character only into one of the same value. */
  lemma ChangedCheckPassesIff(id: string, c: char)
    requires |id| == 18 && Passes(id)
    ensures Passes(id[17 := c]) <==> CheckValue(c) == CheckValue(id[17])
  {
    WeightedOfChange(id, 17, c, 17);
    PassesIff(id);
    PassesIff(id[17 := c]);
    var q := BothPassIff(id, id[17 := c]);
    if Passes(id[17 := c]) {
      SmallMultiple(CheckValue(c) - CheckValue(id[17]), q);
    }
  }

  function Swapped(id: string, i: nat, j: nat): (r: string)
    requires i < |id| && j < |id|
    ensures |r| == |id|
  {
    id[i := id[j]][j := id[i]]
  }

  lemma DoubleApart(d: int, k: nat, m: nat)
    ensures Double(d, k + m) - Double(d, m) == Double(Double(d, k) - d, m)
  {
    DoubleTwice(d, k, m);
    DoubleMinus(Double(d, k), d, m);
  }

  lemma WeightedOfSwap(id: string, i: nat, j: nat)
    requires |id| == 18 && i < j < 17
    ensures var d := Value(id[j]) - Value(id[i]);
            Weighted(Swapped(id, i, j), 17) - Weighted(id, 17) == Double(Double(d, j - i) - d, 17 - j)
  {
    var d := Value(id[j]) - Value(id[i]);
    var once := id[i := id[j]];
    assert once[j] == id[j] && Swapped(id, i, j) == once[j := id[i]];
    WeightedOfChange(id, i, id[j], 17);
    WeightedOfChange(once, j, id[i], 17);
    assert Value(id[i]) - Value(once[j]) == -d;
    DoubleNegated(d, 17 - j);
    DoubleApart(d, j - i, 17 - j);
  }

  lemma NoMultiple(r: int, d: int, q: int)
    requires 0 < r < 11 && -11 < d < 11 && r * d == 11 * q
    ensures d == 0
  {
    if r == 1 {} else if r == 2 {} else if r == 3 {} else if r == 4 {} else if r == 5 {}
    else if r == 6 {} else if r == 7 {} else if r == 8 {} else if r == 9 {} else { assert r == 10; }
  }

  /** The powers of 2 modulo 11. */
  const RESIDUES := [1, 2, 4, 8, 5, 10, 9, 7, 3, 6, 1, 2, 4, 8, 5, 10, 9, 7]

  lemma {:induction false} DoubleResidue(d: int, k: nat) returns (q: int)
    requires k < 18
    ensures Double(d, k) == RESIDUES[k] * d + 11 * q
  {
    q := 0;
    if k == 0 {
    } else {
      q := DoubleResidue(d, k - 1);
      var r := RESIDUES[k - 1];
      assert (2 * r) * d == 2 * (r * d);
      if 2 * r == RESIDUES[k] {
        q := 2 * q;
      } else {
        assert 2 * r == RESIDUES[k] + 11;
        assert (RESIDUES[k] + 11) * d == RESIDUES[k] * d + 11 * d;
        q := 2 * q + d;
      }
    }
  }

  /** Two digits that differ weigh the same in two places only if these are 10 apart. */
  lemma SameWeight(d: int, k: nat, e: int)
    requires -9 <= d <= 9 && 0 < k < 17 && Double(d, k) - d == 11 * e
    ensures d == 0 || k == 10
  {
    var p := DoubleResidue(d, k);
    var r := RESIDUES[k];
    if k != 10 {
      assert (r - 1) * d == r * d - d == 11 * (e - p);
      NoMultiple(r - 1, d, e - p);
    }
  }

  lemma SameWeightAtTen(d: int, k: nat) returns (e: int)
    requires d == 0 || k == 10
    ensures Double(d, k) - d == 11 * e
  {
    if d == 0 {
      DoubleMultiple(0, k);
      e := Double(0, k);
    } else {
      e := DoubleResidue(d, k);
    }
  }

  /** Swapping two of the first 17 characters goes unnoticed only if they have the same value, or are 10 places apart:
    * so adjacent digits that differ cannot be swapped. */
  lemma SwapPassesIff(id: string, i: nat, j: nat)
    requires |id| == 18 && Passes(id) && i < j < 17
    ensures Passes(Swapped(id, i, j)) <==> Value(id[i]) == Value(id[j]) || j - i == 10
  {
    var d := Value(id[j]) - Value(id[i]);
    var other := Swapped(id, i, j);
    WeightedOfSwap(id, i, j);
    PassesIff(id);
    var q := BothPassIff(id, other);
    if Passes(other) {
      var e := HalfAll(Double(d, j - i) - d, 17 - j, q);
      SameWeight(d, j - i, e);
    } else if d == 0 || j - i == 10 {
      var e := SameWeightAtTen(d, j - i);
      DoubleMultiple(e, 17 - j);
    }
  }

  /** What the swap of the last two characters adds to the sum. */
  lemma WeightedOfLastSwap(id: string)
    requires |id| == 18
    ensures Weighted(Swapped(id, 16, 17), 17) - Weighted(id, 17) == 2 * (Value(id[17]) - Value(id[16]))
  {
    var d := Value(id[17]) - Value(id[16]);
    WeightedOfChange(id, 16, id[17], 17);
    WeightedOfChange(id[16 := id[17]], 17, id[16], 17);
    assert Double(d, 1) == 2 * Double(d, 0) == 2 * d;
  }

  /** The last two characters can be swapped, so that the number still passes: two digits only if they are the same; a
    * digit and an X only if the digit is 1, for an X that is moved forward counts as zero; and two X. */
  predicate LastTwoPass(c: char, d: char) {
    if IsDigit(c) then c == d || (c == '1' && !IsDigit(d))
    else CheckValue(c) == 10 && (d == '1' || !IsDigit(d))
  }

  lemma LastSwapPassesIff(id: string)
    requires |id| == 18 && Passes(id)
    ensures Passes(Swapped(id, 16, 17)) <==> LastTwoPass(id[16], id[17])
  {
    var c, d := id[16], id[17];
    var other := Swapped(id, 16, 17);
    WeightedOfLastSwap(id);
    PassesIff(id);
    PassesIff(other);
    var q := BothPassIff(id, other);
    if LastTwoPass(c, d) {
      var p := MultipleOfLastTwo(c, d);
    } else if Passes(other) {
      LastTwoOfMultiple(c, d, q);
    }
  }

  lemma MultipleOfLastTwo(c: char, d: char) returns (q: int)
    requires LastTwoPass(c, d) && CheckValue(d) >= 0
    ensures CheckValue(c) >= 0 && 2 * (Value(d) - Value(c)) + CheckValue(c) - CheckValue(d) == 11 * q
  {
    q := if IsDigit(c) && !IsDigit(d) then -1 else if !IsDigit(c) && IsDigit(d) then 1 else 0;
  }

  lemma LastTwoOfMultiple(c: char, d: char, q: int)
    requires CheckValue(c) >= 0 && CheckValue(d) >= 0
    requires 2 * (Value(d) - Value(c)) + CheckValue(c) - CheckValue(d) == 11 * q
    ensures LastTwoPass(c, d)
  {
  }

  /** A character that is no digit counts as zero, so it can stand for one. */
  lemma LetterForZeroPasses(id: string, i: nat, c: char)
    requires |id| == 18 && Passes(id) && i < 17 && id[i] == '0' && !IsDigit(c)
    ensures Passes(id[i := c])
  {
    ChangedDigitPassesIff(id, i, c);
  }

  const ID := "11010519491231002X"

  lemma SumOfId()
    ensures Sum(ID, 17) == 167
  {
    assert Sum(ID, 1) == 7 && Sum(ID, 2) == 16 && Sum(ID, 3) == 16 && Sum(ID, 4) == 21;
    assert Sum(ID, 5) == 21 && Sum(ID, 6) == 41 && Sum(ID, 7) == 43 && Sum(ID, 8) == 52;
    assert Sum(ID, 9) == 76 && Sum(ID, 10) == 103 && Sum(ID, 11) == 110 && Sum(ID, 12) == 128;
    assert Sum(ID, 13) == 158 && Sum(ID, 14) == 163 && Sum(ID, 15) == 163 && Sum(ID, 16) == 163;
    assert Sum(ID, 17) == 167;
  }

  /** For instance in this number, where the third character is a zero. */
  lemma SuchANumberPasses()
    ensures Passes(ID) && ID[2] == '0' && Passes(ID[2 := 'A'])
  {
    SumOfId();
    assert 167 % 11 == 2;
    LetterForZeroPasses(ID, 2, 'A');
  }

  const ONE_X := "11010519491231061X"

  lemma SumOfOneX()
    ensures Sum(ONE_X, 17) == 189
  {
    assert Sum(ONE_X, 1) == 7 && Sum(ONE_X, 2) == 16 && Sum(ONE_X, 3) == 16 && Sum(ONE_X, 4) == 21;
    assert Sum(ONE_X, 5) == 21 && Sum(ONE_X, 6) == 41 && Sum(ONE_X, 7) == 43 && Sum(ONE_X, 8) == 52;
    assert Sum(ONE_X, 9) == 76 && Sum(ONE_X, 10) == 103 && Sum(ONE_X, 11) == 110 && Sum(ONE_X, 12) == 128;
    assert Sum(ONE_X, 13) == 158 && Sum(ONE_X, 14) == 163 && Sum(ONE_X, 15) == 163 && Sum(ONE_X, 16) == 187;
    assert Sum(ONE_X, 17) == 189;
  }

  /** And for instance in this one, that ends in 1X: with X1 it passes too. */
  lemma SwappedXPasses()
    ensures Passes(ONE_X) && Passes(Swapped(ONE_X, 16, 17)) && Swapped(ONE_X, 16, 17)[16..] == "X1"
  {
    SumOfOneX();
    assert 189 % 11 == 2;
    LastSwapPassesIff(ONE_X);
  }

  // ----- the code

  datatype Outcome = Answer(valid: bool) | Panic

  method MakeVerifyBit(id: string) returns (bit: string)
    ensures bit == if |id| == 17 then [VERIFY[Sum(id, 17) % 11]] else ""
  {
    if |id| != 17 {
      return "";
    }
    var checksum := 0;
    for i := 0 to 17
      invariant checksum == Sum(id, i)
    {
      checksum := checksum + Value(id[i]) * FACTOR[i];
    }
    bit := [VERIFY[checksum % 11]];
  }

  lemma {:induction false} SumOfPrefix(id: string, n: nat)
    requires |id| == 18 && n <= 17
    ensures Sum(id[..17], n) == Sum(id, n)
  {
    if n == 0 {
    } else {
      SumOfPrefix(id, n - 1);
    }
  }

  /** Of 15 characters the code keeps too few to slice a birthday from, and panics. */
  method CheckID(idCard: string, justCheckLength: bool, validDate: string -> bool) returns (r: Outcome)
    ensures |idCard| != 15 && |idCard| != 18 ==> r == Answer(false)
    ensures justCheckLength && (|idCard| == 15 || |idCard| == 18) ==> r == Answer(true)
    ensures !justCheckLength && (|idCard| == 15 || |idCard| == 18) && idCard[..2] !in AREAS ==> r == Answer(false)
    ensures !justCheckLength && |idCard| == 15 && idCard[..2] in AREAS ==> r == Panic
    ensures !justCheckLength && |idCard| == 18 && idCard[..2] in AREAS ==>
              r == Answer(Passes(idCard) && validDate(idCard[6..14]))
  {
    var lengthValidate := |idCard| == 18 || |idCard| == 15;
    if justCheckLength {
      return Answer(lengthValidate);
    }
    if !lengthValidate || idCard[..2] !in AREAS {
      return Answer(false);
    }
    var id := idCard;
    if |id| == 15 {
      if id[12..] in {"996", "997", "998", "999"} {
        id := id[..6] + "18" + id[6..9];
      } else {
        id := id[..6] + "19" + id[6..9];
      }
      var bit := MakeVerifyBit(id);
      id := id + bit;
    } else {
      var bit := MakeVerifyBit(id[..17]);
      SumOfPrefix(id, 17);
      if Upper(id[17]) != Upper(bit[0]) {
        return Answer(false);
      }
    }
    if |id| < 14 {
      return Panic;
    }
    r := Answer(validDate(id[6..14]));
  }
}
