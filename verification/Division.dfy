/** 64-bit division by shifts and subtractions, for the 32-bit loader. */
module Division {
  import opened Arith
  import opened Words

  predicate Word(x: int) { 0 <= x < WORD }

  predicate Signed(x: int) { -HALF_WORD <= x < HALF_WORD }

  /** A machine word read as a signed number. */
  function ToSigned(x: int): (r: int)
    requires Word(x)
    ensures Signed(r)
  {
    if x < HALF_WORD then x else x - WORD
  }

  /** The bits of a signed number. */
  function ToWord(x: int): (r: int)
    ensures Word(r)
  {
    x % WORD
  }

  function Abs(x: int): nat { if x < 0 then -x else x }

  lemma {:induction false} Pow2Grows(k: nat)
    ensures Pow2(k) > k
  {
    if k > 0 {
      Pow2Grows(k - 1);
    }
  }

  lemma AtLeast(quot: int, d: int)
    requires quot >= 0 && d > 0
    ensures 0 <= quot <= quot * d
  {
    TimesMono(0, quot, d);
    if d > 1 {
      TimesMono(0, quot * 1, d - 1);
      assert quot * d == quot + quot * (d - 1);
    }
  }

  /** d is den shifted left by k, and qbit the bit of the quotient that stands for it. */
  ghost predicate Shifted(den: int, d: int, qbit: int, k: nat) {
    qbit == Pow2(k) && d == den * qbit && 0 < qbit <= d < WORD
  }

  lemma ShiftedLeft(den: int, d: int, qbit: int, k: nat)
    requires Shifted(den, d, qbit, k) && ToSigned(d) >= 0
    ensures Shifted(den, ToWord(d * 2), ToWord(qbit * 2), k + 1) && ToWord(d * 2) > d
  {
    hide ToWord;
    assert den * (qbit * 2) == den * qbit * 2;
    WordIs(d * 2);
    WordIs(qbit * 2);
  }

  lemma ShiftedRight(den: int, d: int, qbit: int, k: nat)
    requires Shifted(den, d, qbit, k) && den > 0
    ensures qbit / 2 < qbit
    ensures if k > 0 then Shifted(den, d / 2, qbit / 2, k - 1) && d == 2 * (d / 2) else qbit / 2 == 0 && d == den
  {
    if k > 0 {
      var q := Pow2(k - 1);
      assert den * (2 * q) == 2 * (den * q);
      AtLeast(q, den);
    }
  }

  /** quot is the quotient as far as it is known, and n what is left to divide. */
  ghost predicate Partial(num: int, den: int, quot: int, n: int) {
    num == quot * den + n && 0 <= quot && 0 <= n
  }

  lemma Subtracted(num: int, den: int, quot: int, n: int, d: int, qbit: int, k: nat)
    requires Partial(num, den, quot, n) && Shifted(den, d, qbit, k) && d <= n && Word(num) && den > 0
    ensures Partial(num, den, ToWord(quot + qbit), n - d)
  {
    hide ToWord, Pow2;
    SumTimes(quot, qbit, den);
    AtLeast(quot + qbit, den);
    WordIs(quot + qbit);
  }

  lemma SumTimes(a: int, b: int, c: int)
    ensures (a + b) * c == a * c + c * b
  {
  }

  lemma WordIs(x: int)
    requires -WORD <= x < WORD
    ensures ToWord(x) == if x < 0 then x + WORD else x
  {
    DivIs(x, if x < 0 then -1 else 0, WORD, if x < 0 then x + WORD else x);
  }

  /** __udivmoddi4: the schoolbook division in base 2. */
  method UDivMod(num: int, den: int) returns (quot: int, rem: int)
    requires Word(num) && Word(den) && den != 0
    ensures Word(quot) && num == quot * den + rem && 0 <= rem < den
  {
    hide Shifted, Partial, Pow2, ToWord, ToSigned;
    var n, d, qbit := num, den, 1;
    ghost var k: nat := 0;
    Starts(num, den);
    while ToSigned(d) >= 0
      invariant Shifted(den, d, qbit, k) && Word(d)
      decreases WORD - d
    {
      ShiftedLeft(den, d, qbit, k);
      ShiftedRange(den, d, qbit, k);
      d := ToWord(d * 2);
      qbit := ToWord(qbit * 2);
      k := k + 1;
    }
    TopBit(den, d, qbit, k);
    quot := 0;
    while qbit != 0
      invariant Partial(num, den, quot, n) && qbit >= 0
      invariant if qbit == 0 then n < den else Shifted(den, d, qbit, k) && n < 2 * d
      decreases qbit
    {
      ShiftedRight(den, d, qbit, k);
      if d <= n {
        Subtracted(num, den, quot, n, d, qbit, k);
        n := n - d;
        quot := ToWord(quot + qbit);
      }
      k := if k > 0 then k - 1 else 0;
      d := d / 2;
      qbit := qbit / 2;
    }
    Ends(num, den, quot, n);
    rem := n;
  }

  lemma Starts(num: int, den: int)
    requires Word(num) && Word(den) && den != 0
    ensures Shifted(den, den, 1, 0) && Partial(num, den, 0, num)
  {
  }

  lemma ShiftedRange(den: int, d: int, qbit: int, k: nat)
    requires Shifted(den, d, qbit, k)
    ensures 0 < qbit <= d < WORD
  {
  }

  lemma TopBit(den: int, d: int, qbit: int, k: nat)
    requires Shifted(den, d, qbit, k) && ToSigned(d) < 0
    ensures 0 < qbit && WORD <= 2 * d
  {
  }

  lemma Ends(num: int, den: int, quot: int, n: int)
    requires Partial(num, den, quot, n) && Word(num) && den > 0
    ensures Word(quot) && num == quot * den + n && 0 <= n
  {
    AtLeast(quot, den);
  }

  /** __udivdi3 */
  method UDiv(num: int, den: int) returns (quot: int)
    requires Word(num) && Word(den) && den != 0
    ensures Word(quot) && quot == num / den
  {
    var rem;
    quot, rem := UDivMod(num, den);
    DivIs(num, quot, den, rem);
  }

  /** __umoddi3 */
  method UMod(num: int, den: int) returns (rem: int)
    requires Word(num) && Word(den) && den != 0
    ensures Word(rem) && rem == num % den
  {
    var quot;
    quot, rem := UDivMod(num, den);
    DivIs(num, quot, den, rem);
  }

  function Product(a: int, b: int): int { a * b }

  /** Quotient and remainder as in section 6.5.5 of C99: the quotient is truncated toward zero. */
  ghost predicate Truncated(num: int, den: int, q: int, r: int) {
    num == Product(q, den) + r && Abs(r) < Abs(den) && (r != 0 ==> (r < 0) == (num < 0))
  }

  function Quotient(num: int, den: int): (q: int)
    requires den != 0
  {
    Signs(Abs(num) / Abs(den), (num < 0) != (den < 0))
  }

  function Remainder(num: int, den: int): (r: int)
    requires den != 0
  {
    Signs(Abs(num) % Abs(den), num < 0)
  }

  function Signs(x: int, neg: bool): int { if neg then -x else x }

  lemma Negated(q: int, d: int)
    ensures (-q) * d == -(q * d) && q * (-d) == -(q * d) && (-q) * (-d) == q * d
  {
  }

  /** With signs or without, the same numbers are quotient and remainder. */
  lemma SignsDivide(num: int, den: int, q: int, r: int)
    requires den != 0
    ensures num == Product(q, den) + r <==> Abs(num) == Product(Signs(q, (num < 0) != (den < 0)), Abs(den)) + Signs(r, num < 0)
  {
    Negated(q, den);
  }

  lemma Divides(n: int, d: int, q: int, r: int)
    requires d > 0
    ensures n == Product(n / d, d) + n % d
    ensures n == Product(q, d) + r && 0 <= r < d ==> q == n / d && r == n % d
  {
    if n == Product(q, d) + r && 0 <= r < d {
      DivIs(n, q, d, r);
    }
  }

  /** There is one such quotient and remainder. */
  lemma TruncatedIs(num: int, den: int, q: int, r: int)
    requires den != 0
    ensures Truncated(num, den, q, r) <==> q == Quotient(num, den) && r == Remainder(num, den)
  {
    hide Product;
    Divides(Abs(num), Abs(den), Signs(q, (num < 0) != (den < 0)), Signs(r, num < 0));
    SignsDivide(num, den, q, r);
    SignsDivide(num, den, Quotient(num, den), Remainder(num, den));
  }

  /** The absolute value as a word, also for the least number, which is its own negative. */
  function Magnitude(x: int): (r: int)
    requires Signed(x)
    ensures Word(r)
  {
    ToWord(if x < 0 then ToSigned(ToWord(-x)) else x)
  }

  lemma MagnitudeIs(x: int)
    requires Signed(x)
    ensures Magnitude(x) == Abs(x)
  {
    hide ToWord;
    WordIs(-x);
    WordIs(x);
    WordIs(ToSigned(ToWord(-x)));
  }

  /** A quotient of absolute values, with its sign. */
  function WithSign(u: int, neg: bool): (v: int)
    requires Word(u)
    ensures Signed(v)
  {
    if neg then ToSigned(ToWord(-ToSigned(u))) else ToSigned(u)
  }

  lemma WithSignIs(u: int, neg: bool)
    requires Word(u)
    ensures u < HALF_WORD ==> WithSign(u, neg) == Signs(u, neg)
    ensures u == HALF_WORD ==> WithSign(u, neg) == -HALF_WORD
  {
    hide ToWord;
    WordIs(-ToSigned(u));
  }

  /** Only a division by 1 leaves the quotient as large as 2^63. */
  lemma AtMostHalf(n: int, d: int, q: int, r: int)
    requires 0 <= n <= HALF_WORD && d > 0 && 0 <= r && n == q * d + r && q >= 0
    ensures q <= HALF_WORD && (q == HALF_WORD ==> d == 1 && n == HALF_WORD)
  {
    AtLeast(q, d);
    if d > 1 {
      TimesMono(2, d, q + 1);
      assert d * (q + 1) == q * d + d;
    }
  }

  /** __divdi3 truncates toward zero, except for the one quotient that is not a 64-bit number. */
  method Div(num: int, den: int) returns (v: int)
    requires Signed(num) && Signed(den) && den != 0
    ensures Signed(v)
    ensures v == Quotient(num, den) <==> !(num == -HALF_WORD && den == -1)
    ensures num == -HALF_WORD && den == -1 ==> v == -HALF_WORD
  {
    hide Magnitude, WithSign, ToWord, ToSigned;
    var neg := false;
    if num < 0 {
      neg := !neg;
    }
    if den < 0 {
      neg := !neg;
    }
    MagnitudeIs(num);
    MagnitudeIs(den);
    var u, rem := UDivMod(Magnitude(num), Magnitude(den));
    DivIs(Abs(num), u, Abs(den), rem);
    AtMostHalf(Abs(num), Abs(den), u, rem);
    WithSignIs(u, neg);
    v := WithSign(u, neg);
  }

  /** __moddi3 gives the remainder the sign of the quotient. */
  method Mod(num: int, den: int) returns (v: int)
    requires Signed(num) && Signed(den) && den != 0
    ensures v == if den > 0 then Remainder(num, den) else -Remainder(num, den)
    ensures v == Remainder(num, den) <==> den > 0 || Abs(num) % Abs(den) == 0
  {
    hide Magnitude, WithSign, ToWord, ToSigned;
    var neg := false;
    if num < 0 {
      neg := !neg;
    }
    if den < 0 {
      neg := !neg;
    }
    MagnitudeIs(num);
    MagnitudeIs(den);
    var u, rem := UDivMod(Magnitude(num), Magnitude(den));
    DivIs(Abs(num), u, Abs(den), rem);
    WithSignIs(rem, neg);
    v := WithSign(rem, neg);
  }

  /** The remainder of a division by a negative number is wrong unless it is 0. */
  lemma WrongSign()
    ensures Remainder(7, -2) == 1 && Remainder(-7, -2) == -1
    ensures Truncated(7, -2, -3, 1) && !Truncated(7, -2, -3, -1)
  {
  }
}
