/**
  The text that section 7.19.6.1 of C99 wants for an integer conversion, and when the kernel's
  printer writes it.
 */
module Conformance {
  import opened Arith
  import opened Numerals
  import opened Formats
  import opened Printf

  // ---------- The standard ----------

  function Magnitude(d: int): nat { if d < 0 then -d else d }

  /** The digits of the magnitude, without zeros before them. */
  function Figures(d: int, k: Kind): string
    requires Generated(k)
  {
    Numeral(Magnitude(d), k.base, k.upper)
  }

  /** Only the result of a signed conversion has a sign. */
  function StandardSign(spec: Spec, d: int, k: Kind): string {
    if d < 0 then "-"
    else if !k.signed then ""
    else if '+' in spec.flags then "+"
    else if ' ' in spec.flags then " "
    else ""
  }

  /** With #, a hexadecimal result has 0x or 0X before it unless it is zero. */
  function StandardPrefix(spec: Spec, d: int, k: Kind): string {
    if '#' in spec.flags && k.base == 16 && d != 0 then if k.upper then "0X" else "0x" else ""
  }

  /** With #, the precision of an octal conversion is raised if the first digit would not be 0. */
  function StandardPrecision(spec: Spec, d: int, k: Kind): nat
    requires Generated(k)
  {
    var t := Filled(Figures(d, k), Precision(spec));
    if '#' in spec.flags && k.base == 8 && !(t != "" && t[0] == '0') then |Figures(d, k)| + 1 else Precision(spec)
  }

  function StandardDigits(spec: Spec, d: int, k: Kind): string
    requires Generated(k)
  {
    Filled(Figures(d, k), StandardPrecision(spec, d, k))
  }

  function StandardBody(spec: Spec, d: int, k: Kind): string
    requires Generated(k)
  {
    StandardSign(spec, d, k) + StandardPrefix(spec, d, k) + StandardDigits(spec, d, k)
  }

  /** The field: zeros fill it after the sign and the prefix, not with a precision, and not with the flag -. */
  function StandardField(spec: Spec, head: string, t: string): string {
    var pad := spec.width - |head + t|;
    if '-' in spec.flags then head + t + Repeat(' ', pad)
    else if '0' in spec.flags && !spec.precise then head + (Repeat('0', pad) + t)
    else Repeat(' ', pad) + (head + t)
  }

  function StandardText(spec: Spec, d: int, k: Kind): string
    requires Generated(k)
  {
    StandardField(spec, StandardSign(spec, d, k) + StandardPrefix(spec, d, k), StandardDigits(spec, d, k))
  }

  // ---------- When the printer keeps to it ----------

  /** The printer fills the field with zeros. */
  predicate ZeroFills(spec: Spec) { '0' in spec.flags && '-' !in spec.flags }

  /** The printer writes one zero more than # asks for: the octal digits start with 0 already. */
  predicate ZeroTwice(spec: Spec, d: int, k: Kind)
    requires Generated(k)
  {
    '#' in spec.flags && k.base == 8 && Precision(spec) > |Figures(d, k)|
  }

  /**
    The cases in which the printer keeps to the standard. It never does for the least value of a
    signed type, for zero with 0x, and for an unsigned conversion with the flag +. Zeros of the
    field must not come before a sign or prefix, nor with a precision. The space that it writes for
    the flag ' ' before an unsigned number, and the second zero of %#o, must be hidden among the
    characters that fill the field.
   */
  predicate Conforms(spec: Spec, d: int, k: Kind)
    requires Generated(k)
  {
    var body := StandardBody(spec, d, k);
    && d != -Half(spec.length)
    && !('#' in spec.flags && k.base == 16 && d == 0)
    && if ZeroTwice(spec, d, k) then
         ZeroFills(spec) && !spec.precise && SignText(spec, false) == "" && spec.width > |body|
       else if k.signed || SignText(spec, false) == "" then
         || !ZeroFills(spec) || spec.width <= |body|
         || (!spec.precise && StandardSign(spec, d, k) == "" && StandardPrefix(spec, d, k) == "")
       else
         && '+' !in spec.flags && spec.width > |body|
         && ('-' in spec.flags ==> body == "")
         && (ZeroFills(spec) ==> spec.precise && spec.width == |body| + 1)
  }

  // ---------- Characters ----------

  lemma {:induction false} OnlyRepeated(c: char, n: int)
    ensures forall x {:trigger x in Repeat(c, n)} :: x in Repeat(c, n) ==> x == c
    decreases n
  {
    if n > 0 {
      OnlyRepeated(c, n - 1);
    }
  }

  predicate IsFigure(c: char) { '0' <= c <= '9' || 'a' <= c <= 'f' || 'A' <= c <= 'F' }

  lemma {:induction false} OnlyFigures(d: int, base: nat, upper: bool)
    requires 2 <= base <= 16
    ensures forall x {:trigger x in Numeral(d, base, upper)} :: x in Numeral(d, base, upper) ==> IsFigure(x)
    ensures d > 0 ==> Numeral(d, base, upper) != "" && Numeral(d, base, upper)[0] != '0'
    decreases if d > 0 then d else 0
  {
    if d > 0 {
      QuotientLess(d, base);
      OnlyFigures(d / base, base, upper);
      DigitIsFigure(d % base, upper);
      if d / base == 0 {
        DivMod(d, base);
      }
    }
  }

  lemma DigitIsFigure(x: nat, upper: bool)
    requires x < 16
    ensures IsFigure(DigitChar(x, upper)) && (x > 0 ==> DigitChar(x, upper) != '0')
  {
  }

  lemma FilledFigures(d: int, base: nat, upper: bool, precision: nat)
    requires 2 <= base <= 16
    ensures forall x {:trigger x in Filled(Numeral(d, base, upper), precision)} ::
      x in Filled(Numeral(d, base, upper), precision) ==> IsFigure(x)
  {
    hide Numeral, Repeat;
    OnlyFigures(d, base, upper);
    OnlyRepeated('0', precision - |Numeral(d, base, upper)|);
  }

  lemma {:induction false} RepeatMore(c: char, n: int)
    ensures n >= 0 ==> Repeat(c, n + 1) == [c] + Repeat(c, n) == Repeat(c, n) + [c]
    decreases n
  {
    if n > 0 {
      RepeatMore(c, n - 1);
      assert Repeat(c, n + 1) == Repeat(c, n) + [c];
      assert ([c] + Repeat(c, n - 1)) + [c] == [c] + (Repeat(c, n - 1) + [c]);
    }
  }

  // ---------- Fields ----------

  function Filler(spec: Spec): char { if '0' in spec.flags then '0' else ' ' }

  lemma NothingRepeated(c: char, n: int)
    ensures n <= 0 ==> Repeat(c, n) == ""
  {
  }

  /** Nothing fills the field. */
  lemma FieldFull(spec: Spec, head: string, t: string)
    requires spec.width <= |head + t|
    ensures Padded(spec, head + t, Filler(spec)) == StandardField(spec, head, t) == head + t
  {
    hide Repeat;
    var pad := spec.width - |head + t|;
    NothingRepeated('0', pad);
    NothingRepeated(' ', pad);
    assert "" + (head + t) == head + t && (head + t) + "" == head + t && head + ("" + t) == head + t;
  }

  /** A sign or prefix that is not hidden by zeros: it starts with another character, or its second is no 0. */
  predicate Visible(head: string) { head == "" || head[0] != '0' || (|head| > 1 && head[1] != '0') }

  /** The zeros that fill a field are right exactly if there is nothing they should come after, and no precision. */
  lemma PlaceOfZeros(spec: Spec, head: string, t: string)
    requires Visible(head)
    ensures Padded(spec, head + t, Filler(spec)) == StandardField(spec, head, t) <==>
      !ZeroFills(spec) || spec.width <= |head + t| || (!spec.precise && head == "")
  {
    hide Repeat, Visible;
    var pad := spec.width - |head + t|;
    if pad <= 0 {
      FieldFull(spec, head, t);
    } else if ZeroFills(spec) {
      RepeatAt('0', pad, 0);
      RepeatAt(' ', pad, 0);
      var field := Repeat('0', pad) + (head + t);
      assert field[0] == '0';
      if spec.precise {
        assert (Repeat(' ', pad) + (head + t))[0] == ' ';
      } else if head == "" {
        assert head + t == t && head + (Repeat('0', pad) + t) == Repeat('0', pad) + t;
      } else {
        ZerosBefore(head, t, pad);
      }
    }
  }

  lemma ZerosBefore(head: string, t: string, pad: int)
    requires Visible(head) && head != "" && pad > 0
    ensures Repeat('0', pad) + (head + t) != head + (Repeat('0', pad) + t)
  {
    hide Repeat;
    var z := Repeat('0', pad);
    var a, b := z + (head + t), head + (z + t);
    RepeatAt('0', pad, 0);
    assert a[0] == '0' && b[0] == head[0];
    if head[0] == '0' {
      assert b[1] == head[1];
      if pad > 1 {
        RepeatAt('0', pad, 1);
        assert a[1] == '0';
      } else {
        assert a[1] == head[0];
      }
    }
  }

  /** A space before the body does not show exactly if the field has room for it where it is filled with spaces. */
  lemma SpaceBefore(spec: Spec, head: string, t: string)
    requires ' ' !in head + t
    ensures Padded(spec, " " + (head + t), Filler(spec)) == StandardField(spec, head, t) <==>
      && spec.width > |head + t| && ('-' in spec.flags ==> head + t == "")
      && (ZeroFills(spec) ==> spec.precise && spec.width == |head + t| + 1)
  {
    hide Repeat;
    var body := head + t;
    var pad := spec.width - |body|;
    var code, std := Padded(spec, " " + body, Filler(spec)), StandardField(spec, head, t);
    if pad <= 0 {
      FieldFull(spec, head, t);
      assert |code| == |body| + 1;
    } else if '-' in spec.flags {
      SpaceAtLeft(body, pad);
    } else if '0' !in spec.flags {
      RepeatMore(' ', pad - 1);
      assert code == (Repeat(' ', pad - 1) + " ") + body;
    } else if spec.precise {
      SpaceAfterZeros(body, pad);
    } else {
      OnlyRepeated('0', pad);
      assert ' ' !in std by {
        assert ' ' !in head && ' ' !in t by {
          assert forall i :: 0 <= i < |head| ==> (head + t)[i] == head[i];
          assert forall i :: 0 <= i < |t| ==> (head + t)[|head| + i] == t[i];
        }
      }
      assert code[pad - 1] == ' ';
    }
  }

  lemma SpaceAtLeft(body: string, pad: int)
    requires ' ' !in body && pad > 0
    ensures " " + body + Repeat(' ', pad - 1) == body + Repeat(' ', pad) <==> body == ""
  {
    hide Repeat;
    RepeatMore(' ', pad - 1);
    if body == "" {
      assert " " + body == " " && body + Repeat(' ', pad) == Repeat(' ', pad);
    } else {
      assert (" " + body + Repeat(' ', pad - 1))[0] == ' ';
      assert (body + Repeat(' ', pad))[0] == body[0];
    }
  }

  lemma SpaceAfterZeros(body: string, pad: int)
    requires pad > 0
    ensures Repeat('0', pad - 1) + (" " + body) == Repeat(' ', pad) + body <==> pad == 1
  {
    hide Repeat;
    RepeatAt(' ', pad, 0);
    if pad == 1 {
      NothingRepeated('0', 0);
      RepeatMore(' ', 0);
      NothingRepeated(' ', 0);
      assert Repeat(' ', 1) == " ";
      assert "" + (" " + body) == " " + body;
    } else {
      RepeatAt('0', pad - 1, 0);
      assert (Repeat('0', pad - 1) + (" " + body))[0] == '0';
      assert (Repeat(' ', pad) + body)[0] == ' ';
    }
  }

  /** A second zero before a body that starts with 0 does not show exactly if zeros fill the field anyway. */
  lemma ZeroBefore(spec: Spec, t: string)
    requires ' ' !in t && t != ""
    ensures Padded(spec, "0" + t, Filler(spec)) == StandardField(spec, "", t) <==> ZeroFills(spec) && !spec.precise && spec.width > |t|
  {
    hide Repeat;
    assert "" + t == t;
    var pad := spec.width - |t|;
    var code, std := Padded(spec, "0" + t, Filler(spec)), StandardField(spec, "", t);
    if pad <= 0 {
      FieldFull(spec, "", t);
      assert |code| == |t| + 1;
    } else if '-' in spec.flags {
      RepeatAt(' ', pad, 0);
      assert std[|t|] == ' ' by { assert std == t + Repeat(' ', pad); }
      assert code[|t|] == t[|t| - 1];
    } else if '0' in spec.flags && !spec.precise {
      RepeatMore('0', pad - 1);
      assert code == (Repeat('0', pad - 1) + "0") + t;
      assert std == Repeat('0', pad) + t;
    } else {
      RepeatAt(' ', pad, pad - 1);
      assert std[pad - 1] == ' ';
      assert code[pad - 1] == '0';
    }
  }

  /** A space and a second zero show. */
  lemma SpaceAndZero(spec: Spec, t: string)
    requires ' ' !in t && t != "" && t[0] == '0'
    ensures Padded(spec, " 0" + t, Filler(spec)) != StandardField(spec, "", t)
  {
    hide Repeat;
    assert "" + t == t;
    var pad := spec.width - |t|;
    var code, std := Padded(spec, " 0" + t, Filler(spec)), StandardField(spec, "", t);
    if pad <= 1 {
      assert |code| == |t| + 2;
    } else if '-' in spec.flags {
      assert std == t + Repeat(' ', pad);
      assert code[0] == ' ' && std[0] == t[0];
    } else if ZeroFills(spec) && !spec.precise {
      OnlyRepeated('0', pad);
      assert std == Repeat('0', pad) + t;
      assert ' ' !in std;
      assert code[pad - 2] == ' ';
    } else {
      RepeatAt(' ', pad, pad - 1);
      assert std[pad - 1] == ' ';
      assert code[pad - 1] == '0';
    }
  }

  /** A character that no field has but in its body. */
  lemma InField(spec: Spec, head: string, t: string, code: string, c: char)
    requires c != ' ' && c != '0' && (c in code) != (c in head + t)
    ensures Padded(spec, code, Filler(spec)) != StandardField(spec, head, t)
  {
    hide Repeat;
    var pad := spec.width - |head + t|;
    var std := StandardField(spec, head, t);
    InPadded(spec, code, c);
    OnlyRepeated(' ', pad);
    OnlyRepeated('0', pad);
    assert c in head + t <==> c in head || c in t;
    assert c in std <==> c in head || c in t;
  }

  lemma InPadded(spec: Spec, code: string, c: char)
    requires c != ' ' && c != '0'
    ensures c in Padded(spec, code, Filler(spec)) <==> c in code
  {
    hide Repeat;
    OnlyRepeated(' ', spec.width - |code|);
    OnlyRepeated('0', spec.width - |code|);
  }

  // ---------- The printer ----------

  /** What the printer puts into the field. */
  function PrinterBody(spec: Spec, d: int, k: Kind): string
    requires Generated(k)
  {
    SignText(spec, d < 0) + PrefixText(spec, k) + DigitText(spec, d, k)
  }

  lemma PrinterField(spec: Spec, d: int, k: Kind)
    requires Generated(k)
    ensures IntegerText(spec, d, k) == Padded(spec, PrinterBody(spec, d, k), Filler(spec))
  {
    hide Padded, Filled, Numeral;
  }

  lemma OctalDigits(spec: Spec, d: int, k: Kind)
    requires Generated(k) && '#' in spec.flags && k.base == 8
    ensures var t := Filled(Figures(d, k), Precision(spec));
      if ZeroTwice(spec, d, k) then StandardDigits(spec, d, k) == t && t != "" && t[0] == '0'
      else StandardDigits(spec, d, k) == "0" + t
  {
    hide Numeral, Repeat;
    var num, p := Figures(d, k), Precision(spec);
    OnlyFigures(Magnitude(d), k.base, k.upper);
    if p > |num| {
      RepeatAt('0', p - |num|, 0);
    } else {
      NothingRepeated('0', p - |num|);
      NothingRepeated('0', 0);
      RepeatMore('0', 0);
      NothingToWrite(Magnitude(d), k.base, k.upper);
      assert Filled(num, p) == num;
      assert Repeat('0', 1) == "0";
    }
  }

  lemma OtherDigits(spec: Spec, d: int, k: Kind)
    requires Generated(k) && !('#' in spec.flags && k.base == 8) && !('#' in spec.flags && k.base == 16 && d == 0)
    ensures StandardDigits(spec, d, k) == Filled(Figures(d, k), Precision(spec)) && StandardPrefix(spec, d, k) == PrefixText(spec, k)
  {
    hide Figures, Filled;
  }

  lemma PrinterDigits(spec: Spec, d: int, k: Kind)
    requires Generated(k) && d != -Half(spec.length)
    ensures PrinterBody(spec, d, k) == SignText(spec, d < 0) + PrefixText(spec, k) + Filled(Figures(d, k), Precision(spec))
  {
    hide Numeral, Filled;
    assert Positive(d, spec.length) == Magnitude(d);
  }

  /** Apart from the sign the printer's body is that of the standard, or has one zero more. */
  lemma PrinterBodyIs(spec: Spec, d: int, k: Kind)
    requires Generated(k) && d != -Half(spec.length) && !('#' in spec.flags && k.base == 16 && d == 0)
    ensures !ZeroTwice(spec, d, k) ==> PrinterBody(spec, d, k) == SignText(spec, d < 0) + (StandardPrefix(spec, d, k) + StandardDigits(spec, d, k))
    ensures ZeroTwice(spec, d, k) ==>
      && PrinterBody(spec, d, k) == SignText(spec, d < 0) + ("0" + StandardDigits(spec, d, k))
      && StandardPrefix(spec, d, k) == "" && StandardDigits(spec, d, k) != "" && StandardDigits(spec, d, k)[0] == '0'
  {
    hide Figures, Filled, StandardDigits, PrinterBody, SignText;
    var sign, t := SignText(spec, d < 0), Filled(Figures(d, k), Precision(spec));
    PrinterDigits(spec, d, k);
    assert sign + PrefixText(spec, k) + t == sign + (PrefixText(spec, k) + t);
    if '#' in spec.flags && k.base == 8 {
      OctalDigits(spec, d, k);
      assert StandardPrefix(spec, d, k) == "" && PrefixText(spec, k) == "0";
      assert "" + ("0" + t) == "0" + t;
    } else {
      OtherDigits(spec, d, k);
    }
  }

  lemma BodyFigures(spec: Spec, d: int, k: Kind)
    requires Generated(k)
    ensures forall x {:trigger x in StandardDigits(spec, d, k)} :: x in StandardDigits(spec, d, k) ==> IsFigure(x)
  {
    hide Numeral, Filled;
    FilledFigures(Magnitude(d), k.base, k.upper, StandardPrecision(spec, d, k));
  }

  /** No sign and no prefix looks like the zeros of a field. */
  lemma Heads(spec: Spec, d: int, k: Kind)
    requires Generated(k)
    ensures Visible(StandardSign(spec, d, k) + StandardPrefix(spec, d, k))
    ensures !k.signed && d >= 0 ==> ' ' !in StandardBody(spec, d, k) && '+' !in StandardBody(spec, d, k)
  {
    hide StandardDigits;
    BodyFigures(spec, d, k);
  }

  /** The least value is written without its digits. */
  lemma LeastDiffers(spec: Spec, k: Kind)
    requires Generated(k) && k.signed
    ensures IntegerText(spec, -Half(spec.length), k) != StandardText(spec, -Half(spec.length), k)
  {
    hide Numeral, Repeat, Padded, StandardField;
    var d := -Half(spec.length);
    var num := Figures(d, k);
    OnlyFigures(Magnitude(d), k.base, k.upper);
    var c := num[0];
    assert c in num && IsFigure(c);
    PrinterField(spec, d, k);
    NothingToWrite(d, k.base, k.upper);
    OnlyRepeated('0', Precision(spec));
    assert DigitText(spec, d, k) == Repeat('0', Precision(spec)) + "";
    assert c !in DigitText(spec, d, k) && c != '-';
    assert PrinterBody(spec, d, k) == "-" + "" + DigitText(spec, d, k);
    assert c in StandardDigits(spec, d, k);
    InField(spec, StandardSign(spec, d, k) + StandardPrefix(spec, d, k), StandardDigits(spec, d, k), PrinterBody(spec, d, k), c);
  }

  /** Zero has no 0x. */
  lemma ZeroHexDiffers(spec: Spec, k: Kind)
    requires Generated(k) && '#' in spec.flags && k.base == 16
    ensures IntegerText(spec, 0, k) != StandardText(spec, 0, k)
  {
    hide Numeral, Repeat, Padded, StandardField, StandardDigits, DigitText;
    var x := k.prefix[1];
    PrinterField(spec, 0, k);
    BodyFigures(spec, 0, k);
    var sign := SignText(spec, false);
    assert PrinterBody(spec, 0, k)[|sign| + 1] == x;
    InField(spec, StandardSign(spec, 0, k) + StandardPrefix(spec, 0, k), StandardDigits(spec, 0, k), PrinterBody(spec, 0, k), x);
  }

  /** An unsigned number has no sign. */
  lemma PlusDiffers(spec: Spec, d: int, k: Kind)
    requires Generated(k) && d >= 0 && !k.signed && '+' in spec.flags
    ensures IntegerText(spec, d, k) != StandardText(spec, d, k)
  {
    hide Numeral, Repeat, Padded, StandardField, StandardDigits, DigitText;
    PrinterField(spec, d, k);
    Heads(spec, d, k);
    assert PrinterBody(spec, d, k)[0] == '+';
    InField(spec, StandardSign(spec, d, k) + StandardPrefix(spec, d, k), StandardDigits(spec, d, k), PrinterBody(spec, d, k), '+');
  }

  lemma SameSign(spec: Spec, d: int, k: Kind)
    requires Generated(k) && d != -Half(spec.length) && !('#' in spec.flags && k.base == 16 && d == 0) && !ZeroTwice(spec, d, k)
    requires d < 0 || k.signed || SignText(spec, false) == ""
    ensures IntegerText(spec, d, k) == StandardText(spec, d, k) <==>
      || !ZeroFills(spec) || spec.width <= |StandardBody(spec, d, k)|
      || (!spec.precise && StandardSign(spec, d, k) == "" && StandardPrefix(spec, d, k) == "")
  {
    hide Padded, StandardField, StandardDigits, DigitText, ZeroTwice, ZeroFills, Visible;
    var head, t := StandardSign(spec, d, k) + StandardPrefix(spec, d, k), StandardDigits(spec, d, k);
    PrinterField(spec, d, k);
    PrinterBodyIs(spec, d, k);
    Heads(spec, d, k);
    assert SignText(spec, d < 0) == StandardSign(spec, d, k);
    assert PrinterBody(spec, d, k) == head + t == StandardBody(spec, d, k);
    PlaceOfZeros(spec, head, t);
  }

  lemma SpaceSign(spec: Spec, d: int, k: Kind)
    requires Generated(k) && d >= 0 && !('#' in spec.flags && k.base == 16 && d == 0) && !ZeroTwice(spec, d, k)
    requires !k.signed && SignText(spec, false) == " "
    ensures var body := StandardBody(spec, d, k);
      IntegerText(spec, d, k) == StandardText(spec, d, k) <==>
        && spec.width > |body| && ('-' in spec.flags ==> body == "") && (ZeroFills(spec) ==> spec.precise && spec.width == |body| + 1)
  {
    hide Padded, StandardField, StandardDigits, StandardPrefix, PrinterBody, IntegerText, ZeroTwice, ZeroFills, Visible;
    var head, t := StandardPrefix(spec, d, k), StandardDigits(spec, d, k);
    PrinterField(spec, d, k);
    PrinterBodyIs(spec, d, k);
    Heads(spec, d, k);
    assert StandardSign(spec, d, k) + head == head;
    SpaceBefore(spec, head, t);
  }

  lemma SecondZero(spec: Spec, d: int, k: Kind)
    requires Generated(k) && d >= 0 && !k.signed && ZeroTwice(spec, d, k) && '+' !in spec.flags
    ensures IntegerText(spec, d, k) == StandardText(spec, d, k) <==>
      ZeroFills(spec) && !spec.precise && SignText(spec, false) == "" && spec.width > |StandardBody(spec, d, k)|
  {
    hide Padded, StandardField, StandardDigits, DigitText, ZeroFills, Visible, Numeral, Filled;
    var t := StandardDigits(spec, d, k);
    PrinterField(spec, d, k);
    PrinterBodyIs(spec, d, k);
    Heads(spec, d, k);
    assert StandardBody(spec, d, k) == "" + "" + t == t;
    assert "" + ("0" + t) == "0" + t && " " + ("0" + t) == " 0" + t;
    if SignText(spec, false) == "" {
      ZeroBefore(spec, t);
    } else {
      SpaceAndZero(spec, t);
    }
  }

  /** Every integer conversion: the printer writes the text of the standard exactly in the cases of Conforms. */
  lemma IntegerIsStandard(spec: Spec, d: int, k: Kind)
    requires Generated(k) && InType(d, spec.length, k.signed)
    ensures IntegerText(spec, d, k) == StandardText(spec, d, k) <==> Conforms(spec, d, k)
  {
    hide IntegerText, StandardText, StandardBody, ZeroFills, StandardSign, StandardPrefix;
    if d == -Half(spec.length) {
      LeastDiffers(spec, k);
    } else if '#' in spec.flags && k.base == 16 && d == 0 {
      ZeroHexDiffers(spec, k);
    } else if !k.signed && '+' in spec.flags {
      PlusDiffers(spec, d, k);
    } else if ZeroTwice(spec, d, k) {
      SecondZero(spec, d, k);
    } else if k.signed || SignText(spec, false) == "" {
      SameSign(spec, d, k);
    } else {
      SpaceSign(spec, d, k);
    }
  }

  /** The types of the modifiers are as wide as their values are taken. */
  lemma WidthOfType(l: Length)
    ensures 2 * Half(l) == Power(2, LengthBits(l))
  {
    hide Power;
    PowerFour();
    PowerSum(2, 4, 4);
    PowerSum(2, 8, 8);
    PowerSum(2, 16, 16);
    PowerSum(2, 32, 32);
  }

  lemma PowerFour()
    ensures Power(2, 4) == 16
  {
    assert Power(2, 4) == 2 * (2 * (2 * (2 * 1)));
  }

  /** A text is that of the standard exactly in these cases, for the value of the kind's type that the argument has modulo its size. */
  ghost predicate StandardExactly(text: string, spec: Spec, k: Kind, bits: nat, size: nat)
    requires Generated(k) && size > 0
  {
    exists d: int {:trigger InType(d, spec.length, k.signed)} ::
      && InType(d, spec.length, k.signed) && (d - bits) % size == 0
      && (text == StandardText(spec, d, k) <==> Conforms(spec, d, k))
  }

  /** The conversions of the standard: base, prefix with the flag #, capital letters, and whether the type is signed. */
  function StandardKind(c: char): Kind {
    Kind(if c == 'o' then 8 else if c in {'x', 'X'} then 16 else 10,
         if c == 'o' then "0" else if c == 'x' then "0x" else if c == 'X' then "0X" else "",
         c == 'X', c in {'d', 'i'})
  }

  lemma KindIsStandard(c: char)
    requires IsInteger(c)
    ensures KindOf(c) == StandardKind(c)
  {
  }

  lemma PowerOfTwo(n: nat)
    ensures Power(2, n) > 0
  {
  }

  function TypeSize(modifier: string): (size: nat)
    ensures size > 0
  {
    PowerOfTwo(TypeBits(modifier));
    Power(2, TypeBits(modifier))
  }

  /**
    A format that is one integer conversion, however it is written, prints what the standard asks
    for exactly in these cases; the argument is taken modulo the size of the modifier's type.
   */
  lemma PrintsStandard(w: Written, args: seq<Arg>, bits: nat)
    requires IsWritten(w) && IsInteger(w.specifier) && AllGiven(w, args) && AfterAmounts(w, args) == [Number(bits)]
    ensures var p, out := Parse(WrittenText(w), 0, args), Expand(WrittenText(w), 0, args);
      && p.Parsed? && Means(p.spec, w, args) && out.complete && out.args == []
      && Generated(StandardKind(w.specifier)) && StandardExactly(out.text, p.spec, StandardKind(w.specifier), bits, TypeSize(w.modifier))
  {
    hide IntegerText, StandardText, Conforms, Parse, Expand, Convert, Power, InType, Typed, Means, AllGiven, AfterAmounts, WrittenText, IsWritten;
    PrintsOne(w, args);
    KindIsStandard(w.specifier);
    var spec, k := Parse(WrittenText(w), 0, args).spec, KindOf(w.specifier);
    IntegerMeans(spec, w, args);
    ConvertInteger(spec, bits);
    var d := Typed(bits, spec.length, k.signed);
    WidthOfType(spec.length);
    TypedIs(bits, spec.length, k.signed);
    IntegerIsStandard(spec, d, k);
  }

  lemma IntegerMeans(spec: Spec, w: Written, args: seq<Arg>)
    requires AllGiven(w, args) && Means(spec, w, args) && IsInteger(w.specifier)
    ensures spec.specifier == w.specifier && LengthBits(spec.length) == TypeBits(w.modifier)
  {
  }

  lemma ConvertInteger(spec: Spec, bits: nat)
    requires IsInteger(spec.specifier)
    ensures var k := KindOf(spec.specifier);
      Convert(spec, [Number(bits)]) == Converted(IntegerText(spec, Typed(bits, spec.length, k.signed), k), [])
  {
    hide IntegerText, Typed;
    assert [Number(bits)][1..] == [];
  }

  lemma TypedIs(bits: nat, l: Length, signed: bool)
    ensures (Typed(bits, l, signed) - bits) % (2 * Half(l)) == 0
  {
    var n := 2 * Half(l);
    var q, r := bits / n, bits % n;
    assert bits == n * q + r;
    MultipleMod(-q, n);
    MultipleMod(-q - 1, n);
    assert (-q - 1) * n == -q * n - n;
    assert Typed(bits, l, signed) - bits == -q * n || Typed(bits, l, signed) - bits == (-q - 1) * n;
  }

  // ---------- The other conversions ----------

  /** A text in a field: at the left with the flag - and spaces after it, at the right without it and filled up before it. */
  ghost predicate InItsField(r: string, t: string, left: bool, width: nat, fill: char) {
    && |r| == (if width > |t| then width else |t|)
    && (if left then r[..|t|] == t && forall i :: |t| <= i < |r| ==> r[i] == ' '
        else r[|r| - |t|..] == t && forall i :: 0 <= i < |r| - |t| ==> r[i] == fill)
  }

  lemma TextInField(spec: Spec, t: string, fill: char)
    ensures InItsField(Padded(spec, t, fill), t, '-' in spec.flags, spec.width, fill)
  {
    hide Repeat;
    var pad := spec.width - |t|;
    forall i | 0 <= i < pad ensures Repeat(' ', pad)[i] == ' ' && Repeat(fill, pad)[i] == fill {
      RepeatAt(' ', pad, i);
      RepeatAt(fill, pad, i);
    }
  }

  /** Standard or not, an integer is written as sign, prefix and digits in a field of the width. */
  lemma IntegerInField(spec: Spec, d: int, k: Kind)
    requires Generated(k)
    ensures var sign := if d < 0 then "-" else if '+' in spec.flags then "+" else if ' ' in spec.flags then " " else "";
      var body := sign + (if '#' in spec.flags then k.prefix else "") + DigitText(spec, d, k);
      InItsField(IntegerText(spec, d, k), body, '-' in spec.flags, spec.width, if '0' in spec.flags then '0' else ' ')
  {
    hide InItsField, Padded, Numeral, Filled;
    TextInField(spec, SignText(spec, d < 0) + PrefixText(spec, k) + DigitText(spec, d, k), if '0' in spec.flags then '0' else ' ');
  }

  /** A format that is one %s writes as much of the text as the precision allows, in a field of the width. */
  lemma PrintsString(w: Written, args: seq<Arg>, t: string)
    requires IsWritten(w) && w.specifier == 's' && AllGiven(w, args) && AfterAmounts(w, args) == [Text(t)]
    ensures var width, precision := Amounts(w.width, args), Amounts(w.precision, AfterAmount(w.width, args));
      var n := if w.precise && precision < |t| then precision else |t|;
      var out := Expand(WrittenText(w), 0, args);
      out.complete && out.args == [] && InItsField(out.text, t[..n], '-' in w.flags, width, ' ')
  {
    hide Parse, Expand, Padded, InItsField;
    PrintsOne(w, args);
    var spec := Parse(WrittenText(w), 0, args).spec;
    assert t[..|t|] == t;
    var n := if spec.precise && spec.precision < |t| then spec.precision else |t|;
    TextInField(spec, t[..n], ' ');
  }

  /** A format that is one %p writes the 16 digits of the word, with 0x before them exactly if the flag # asks for it. */
  lemma PrintsPointer(w: Written, args: seq<Arg>, bits: nat)
    requires IsWritten(w) && w.specifier == 'p' && AllGiven(w, args) && AfterAmounts(w, args) == [Number(bits)]
    ensures var out := Expand(WrittenText(w), 0, args);
      var sign := if '+' in w.flags || ' ' in w.flags then 1 else 0;
      && out.complete && out.args == [] && |out.text| == sign + (if '#' in w.flags then 18 else 16)
      && (out.text[sign..sign + 2] == "0x" <==> '#' in w.flags)
      && Read(out.text[|out.text| - 16..], 16) == bits % 0x1_0000_0000_0000_0000
  {
    hide Parse, Expand, Convert, Read;
    PrintsOne(w, args);
    var spec := Parse(WrittenText(w), 0, args).spec;
    PointerText(spec, bits);
  }

  /** A format that is one %c or %% writes one character: the argument as an unsigned char, or the %. */
  lemma PrintsCharacter(w: Written, args: seq<Arg>, bits: nat)
    requires IsWritten(w) && AllGiven(w, args) && w.specifier in {'c', '%'}
    requires AfterAmounts(w, args) == if w.specifier == 'c' then [Number(bits)] else []
    ensures var out := Expand(WrittenText(w), 0, args);
      out.complete && out.args == [] && |out.text| == 1 && out.text[0] as int == if w.specifier == 'c' then bits % 256 else '%' as int
  {
    hide Parse, Expand, Padded, IntegerText;
    PrintsOne(w, args);
  }

  // ---------- Cases that differ ----------

  function With(flags: set<char>, specifier: char): Spec { Spec(flags, false, 0, 0, Plain, specifier) }

  lemma FewZeros()
    ensures Repeat('0', -1) == "" && Repeat('0', 0) == "" && Repeat('0', 1) == "0" && Repeat('0', 2) == "00" && Repeat(' ', 0) == "" && Repeat(' ', -1) == ""
  {
    assert Repeat('0', 1) == Repeat('0', 0) + ['0'];
  }

  lemma FewNumerals()
    ensures Numeral(42, 10, false) == "42" && Numeral(5, 10, false) == "5" && Numeral(8, 8, false) == "10"
    ensures forall base {:trigger Numeral(0, base, false)} :: 2 <= base <= 16 ==> Numeral(0, base, false) == ""
  {
    assert Numeral(4, 10, false) == Numeral(0, 10, false) + "4";
    assert Numeral(1, 8, false) == Numeral(0, 8, false) + "1";
  }

  /** %05d of -42 comes out as 00-42. */
  lemma ZerosBeforeSign()
    ensures var spec := With({'0'}, 'd').(width := 5); IntegerText(spec, -42, DECIMAL) == "00-42" && StandardText(spec, -42, DECIMAL) == "-0042"
  {
    hide Numeral, Repeat;
    FewNumerals();
    FewZeros();
    assert Filled("42", 1) == "42" && "-" + "" + "42" == "-42";
  }

  /** %#x of 0 comes out as 0x0. */
  lemma PrefixOfZero()
    ensures var spec := With({'#'}, 'x'); IntegerText(spec, 0, HEX) == "0x0" && StandardText(spec, 0, HEX) == "0"
  {
    hide Numeral, Repeat;
    FewNumerals();
    FewZeros();
    assert Filled("", 1) == "0" && "" + "0x" + "0" == "0x0";
  }

  /** %#o of 0 comes out as 00, and %#.3o of 8 as 0010. */
  lemma OctalZeros()
    ensures var spec := With({'#'}, 'o'); IntegerText(spec, 0, OCTAL) == "00" && StandardText(spec, 0, OCTAL) == "0"
    ensures var spec := With({'#'}, 'o').(precise := true, precision := 3); IntegerText(spec, 8, OCTAL) == "0010" && StandardText(spec, 8, OCTAL) == "010"
  {
    hide Numeral, Repeat;
    FewNumerals();
    FewZeros();
    assert Filled("", 1) == "0" && "" + "0" + "0" == "00";
    assert Filled("10", 3) == "010" && "" + "0" + "010" == "0010";
  }

  /** %+u of 5 comes out as +5. */
  lemma SignOfUnsigned()
    ensures var spec := With({'+'}, 'u'); IntegerText(spec, 5, UNSIGNED) == "+5" && StandardText(spec, 5, UNSIGNED) == "5"
  {
    hide Numeral, Repeat;
    FewNumerals();
    FewZeros();
    assert Filled("5", 1) == "5" && "+" + "" + "5" == "+5";
  }

  lemma LeastNumeral()
    ensures Numeral(128, 10, false) == "128" && Numeral(-128, 10, false) == ""
  {
    assert Numeral(1, 10, false) == Numeral(0, 10, false) + "1";
    assert Numeral(12, 10, false) == Numeral(1, 10, false) + "2";
  }

  /** %hhd of -128 comes out as -0. */
  lemma LeastValue()
    ensures var spec := With({}, 'd').(length := Hh); IntegerText(spec, -128, DECIMAL) == "-0" && StandardText(spec, -128, DECIMAL) == "-128"
  {
    hide Repeat, Numeral;
    FewZeros();
    LeastNumeral();
    assert Filled("", 1) == "0" && "-" + "" + "0" == "-0";
    assert Filled("128", 1) == "128" && "-" + "" + "128" == "-128";
  }
}
