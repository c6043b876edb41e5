/** Numerals as the kernel's printer writes them, and as one reads them. */
module Numerals {
  import opened Arith

  /** The digits the printer uses. */
  function DigitChar(x: nat, upper: bool): (c: char)
    requires x < 16
    ensures c as int == if x < 10 then '0' as int + x else (if upper then 'A' else 'a') as int + (x - 10)
  {
    if upper then "0123456789ABCDEF"[x] else "0123456789abcdef"[x]
  }

  /** The value of a digit; 0 for anything else. */
  function DigitValue(c: char): nat {
    if '0' <= c <= '9' then c as int - '0' as int
    else if 'a' <= c <= 'f' then c as int - 'a' as int + 10
    else if 'A' <= c <= 'F' then c as int - 'A' as int + 10
    else 0
  }

  lemma DigitReadBack(x: nat, upper: bool)
    requires x < 16
    ensures DigitValue(DigitChar(x, upper)) == x && DigitChar(x, upper) != '\0'
    ensures x < 10 ==> '0' <= DigitChar(x, upper) <= '9' && (x > 0 ==> DigitChar(x, upper) != '0')
  {
  }

  /** The numeral of a positive number, most significant digit first; nothing for the others. */
  function Numeral(d: int, base: nat, upper: bool): (t: string)
    requires 2 <= base <= 16
    decreases if d > 0 then d else 0
  {
    if d <= 0 then "" else Numeral(d / base, base, upper) + [DigitChar(d % base, upper)]
  }

  /** The number a text stands for. */
  function Read(t: string, base: nat): nat {
    if t == "" then 0 else Read(t[..|t| - 1], base) * base + DigitValue(t[|t| - 1])
  }

  function Repeat(c: char, n: int): (t: string)
    ensures |t| == if n > 0 then n else 0
    decreases if n > 0 then n else 0
  {
    if n <= 0 then "" else Repeat(c, n - 1) + [c]
  }

  /** A numeral with any number of zeros before it is read as the number it was written for. */
  lemma {:induction false} ReadBack(d: int, base: nat, upper: bool, zeros: int)
    requires 2 <= base <= 16
    ensures Read(Repeat('0', zeros) + Numeral(d, base, upper), base) == if d > 0 then d else 0
    decreases if d > 0 then d else 0, if zeros > 0 then zeros else 0
  {
    hide Read, DigitChar, DigitValue, Numeral;
    NothingToWrite(d, base, upper);
    var z, t := Repeat('0', zeros), Numeral(d, base, upper);
    if d > 0 {
      QuotientLess(d, base);
      ReadBack(d / base, base, upper, zeros);
      OneMoreDigit(z, d, base, upper);
    } else if zeros > 0 {
      assert z + t == (Repeat('0', zeros - 1) + t) + ['0'];
      ReadMore(Repeat('0', zeros - 1) + t, '0', base);
      ReadBack(d, base, upper, zeros - 1);
      ZeroIsZero();
    } else {
      assert z + t == "";
      ReadNothing(base);
    }
  }

  lemma QuotientLess(d: int, base: nat)
    requires base >= 2 && d > 0
    ensures 0 <= d / base < d
  {
    DivMod(d, base);
    if d / base > 0 {
      TimesMono(2, base, d / base);
    }
  }

  lemma OneMoreDigit(z: string, d: int, base: nat, upper: bool)
    requires 2 <= base <= 16 && d > 0 && Read(z + Numeral(d / base, base, upper), base) == d / base
    ensures Read(z + Numeral(d, base, upper), base) == d
  {
    hide Read, DigitChar, DigitValue;
    var rest, c := Numeral(d / base, base, upper), DigitChar(d % base, upper);
    assert z + Numeral(d, base, upper) == (z + rest) + [c];
    ReadMore(z + rest, c, base);
    DigitReadBack(d % base, upper);
    DivMod(d, base);
  }

  lemma ReadMore(t: string, c: char, base: nat)
    ensures Read(t + [c], base) == Read(t, base) * base + DigitValue(c)
  {
    assert (t + [c])[..|t|] == t;
  }

  lemma DivMod(d: int, p: int)
    requires p > 0
    ensures d == d / p * p + d % p
  {
  }

  lemma ZeroIsZero()
    ensures DigitValue('0') == 0
  {
  }

  lemma NothingToWrite(d: int, base: nat, upper: bool)
    requires 2 <= base <= 16
    ensures d <= 0 ==> Numeral(d, base, upper) == ""
  {
  }

  lemma ReadNothing(base: nat)
    ensures Read("", base) == 0
  {
  }

  function Power(base: nat, k: nat): nat { if k == 0 then 1 else base * Power(base, k - 1) }

  /** The numeral has no more digits than the size of the number allows. */
  lemma {:induction false} NumeralFits(d: int, base: nat, upper: bool, k: nat)
    requires 2 <= base <= 16 && d < Power(base, k)
    ensures |Numeral(d, base, upper)| <= k
    decreases k
  {
    if d > 0 {
      OneDigitLess(d, base, k);
      NumeralFits(d / base, base, upper, k - 1);
    }
  }

  lemma OneDigitLess(d: int, base: nat, k: nat)
    requires 2 <= base && 0 < d < Power(base, k)
    ensures k > 0 && d / base < Power(base, k - 1)
  {
    var q := Power(base, k - 1);
    if d / base >= q {
      TimesMono(q, d / base, base);
    }
  }

  /** A decimal numeral starts with a digit that is not 0. */
  lemma {:induction false} DecimalDigits(d: int)
    ensures forall k {:trigger Numeral(d, 10, false)[k]} :: 0 <= k < |Numeral(d, 10, false)| ==> '0' <= Numeral(d, 10, false)[k] <= '9'
    ensures d > 0 ==> |Numeral(d, 10, false)| > 0 && Numeral(d, 10, false)[0] != '0'
    decreases if d > 0 then d else 0
  {
    if d > 0 {
      DecimalDigits(d / 10);
      DigitReadBack(d % 10, false);
    }
  }

  /** 24 digits are enough for every word and base of the printer. */
  lemma WordFits(base: nat)
    requires base == 8 || base == 10 || base == 16
    ensures 0x1_0000_0000_0000_0000 <= Power(base, 24)
  {
    PowerIs(base, 8);
    PowerSum(base, 8, 8);
    PowerSum(base, 16, 8);
    TimesMono(0x100_0000, Power(base, 8), 0x100_0000);
    TimesMono(0x100_0000, Power(base, 8), Power(base, 8));
    TimesMono(0x1_0000_0000_0000, Power(base, 16), Power(base, 8));
  }

  lemma PowerIs(base: nat, k: nat)
    requires (base == 8 || base == 10 || base == 16) && k == 8
    ensures Power(base, k) >= 0x100_0000
  {
    assert Power(base, 4) == base * (base * (base * (base * 1)));
    assert Power(base, 8) == base * (base * (base * (base * Power(base, 4))));
  }

  lemma {:induction false} PowerSum(base: nat, a: nat, b: nat)
    ensures Power(base, a + b) == Power(base, a) * Power(base, b)
    decreases a
  {
    if a > 0 {
      PowerSum(base, a - 1, b);
      assert base * (Power(base, a - 1) * Power(base, b)) == base * Power(base, a - 1) * Power(base, b);
    }
  }
}
