/** The formatted printer. */
module Printf {
  import opened Numerals
  import opened Formats

  /** An output device; what was written to it so far. */
  class Device {
    var out: string

    constructor ()
      ensures out == ""
    {
      out := "";
    }

    method Putc(c: char)
      modifies this
      ensures out == old(out) + [c]
    {
      out := out + [c];
    }

    /** Writes at most n characters of s; returns how many. */
    method Putns(s: string, n: nat) returns (ret: nat)
      modifies this
      ensures ret == (if n < |s| then n else |s|) && out == old(out) + s[..ret]
    {
      ret := 0;
      while ret < |s| && ret < n
        invariant ret <= |s| && ret <= n && out == old(out) + s[..ret]
      {
        assert s[..ret + 1] == s[..ret] + [s[ret]];
        Putc(s[ret]);
        ret := ret + 1;
      }
    }

    method Puts(s: string) returns (ret: nat)
      modifies this
      ensures ret == |s| && out == old(out) + s
    {
      ret := Putns(s, |s|);
      assert s[..|s|] == s;
    }

    /** The padding loops: c for every place from used up to width. */
    method Pad(c: char, used: int, width: int) returns (ret: nat)
      modifies this
      ensures out == old(out) + Repeat(c, width - used) && ret == |Repeat(c, width - used)|
    {
      ret := 0;
      var i := used;
      while i < width
        invariant ret == i - used && (i <= width || ret == 0) && out == old(out) + Repeat(c, ret)
      {
        Putc(c);
        i := i + 1;
        ret := ret + 1;
        assert Repeat(c, ret) == Repeat(c, ret - 1) + [c];
      }
    }
  }

  function Max(a: int, b: int): int { if a > b then a else b }

  /** One of the generated printers. */
  datatype Kind = Kind(base: nat, prefix: string, upper: bool, signed: bool)

  const DECIMAL := Kind(10, "", false, true)
  const UNSIGNED := Kind(10, "", false, false)
  const OCTAL := Kind(8, "0", false, false)
  const HEX := Kind(16, "0x", false, false)
  const UPPER_HEX := Kind(16, "0X", true, false)

  predicate Generated(k: Kind) { k in {DECIMAL, UNSIGNED, OCTAL, HEX, UPPER_HEX} }

  /** The least value of the signed type with a length, negated. */
  function Half(l: Length): (h: int)
    ensures h > 0
  {
    match l
    case Plain => 0x8000_0000
    case Hh => 0x80
    case H => 0x8000
    case L => 0x8000_0000_0000_0000
    case Ll => 0x8000_0000_0000_0000
  }

  /** A machine word as a value of the type a printer takes. */
  function Typed(bits: nat, l: Length, signed: bool): (d: int)
    ensures InType(d, l, signed)
  {
    var low := bits % (2 * Half(l));
    if signed && low >= Half(l) then low - 2 * Half(l) else low
  }

  predicate InType(d: int, l: Length, signed: bool) {
    if signed then -Half(l) <= d < Half(l) else 0 <= d < 2 * Half(l)
  }

  /** d = -d in the printer's type: the least value is its own negative. */
  function Positive(d: int, l: Length): int {
    if d >= 0 || d == -Half(l) then d else -d
  }

  function SignText(spec: Spec, negative: bool): string {
    if negative then "-" else if '+' in spec.flags then "+" else if ' ' in spec.flags then " " else ""
  }

  function PrefixText(spec: Spec, k: Kind): string { if '#' in spec.flags then k.prefix else "" }

  function Precision(spec: Spec): nat { if spec.precise then spec.precision else 1 }

  /** Digits with zeros before them up to a precision. */
  function Filled(digits: string, precision: nat): string { Repeat('0', precision - |digits|) + digits }

  function DigitText(spec: Spec, d: int, k: Kind): string
    requires Generated(k)
  {
    Filled(Numeral(Positive(d, spec.length), k.base, k.upper), Precision(spec))
  }

  /** A text in a field of the width of the specifier. */
  function Padded(spec: Spec, t: string, padder: char): string {
    if '-' in spec.flags then t + Repeat(' ', spec.width - |t|) else Repeat(padder, spec.width - |t|) + t
  }

  /** A number in its field; zeros that fill the field come before the sign. */
  function Field(spec: Spec, sign: string, prefix: string, digits: string, precision: nat): string {
    Padded(spec, sign + prefix + Filled(digits, precision), if '0' in spec.flags then '0' else ' ')
  }

  function IntegerText(spec: Spec, d: int, k: Kind): string
    requires Generated(k)
  {
    Field(spec, SignText(spec, d < 0), PrefixText(spec, k), Numeral(Positive(d, spec.length), k.base, k.upper), Precision(spec))
  }

  /** The length of what an integer conversion writes. */
  lemma IntegerLength(spec: Spec, d: int, k: Kind)
    requires Generated(k)
    ensures |IntegerText(spec, d, k)| ==
      Max(spec.width, |SignText(spec, d < 0)| + |PrefixText(spec, k)| + Max(Precision(spec), |Numeral(Positive(d, spec.length), k.base, k.upper)|))
  {
  }

  lemma {:induction false} RepeatAt(c: char, n: int, i: nat)
    requires i < n
    ensures Repeat(c, n)[i] == c
    decreases n
  {
    if i < n - 1 {
      RepeatAt(c, n - 1, i);
    }
  }

  lemma NoPad(pad: int, body: string, head: string, t: string)
    requires body == head + t
    ensures pad <= 0 ==> Repeat('0', pad) + body == Repeat(' ', pad) + body == body == head + (Repeat('0', pad) + t) == body + Repeat(' ', pad)
  {
    if pad <= 0 {
      assert Repeat('0', pad) == "" && Repeat(' ', pad) == "";
    }
  }

  /** The number a sign and digits stand for. */
  function ValueOf(sign: string, digits: string, base: nat): int {
    var n: int := Read(digits, base);
    if sign == "-" then -n else n
  }

  /** What was written stands for the argument, unless that is the least value of its type, which is written as -0. */
  lemma IntegerReadBack(spec: Spec, d: int, k: Kind)
    requires Generated(k) && InType(d, spec.length, k.signed)
    ensures ValueOf(SignText(spec, d < 0), DigitText(spec, d, k), k.base) == d <==> d != -Half(spec.length)
  {
    hide Numeral, Read;
    var t := Numeral(Positive(d, spec.length), k.base, k.upper);
    ReadBack(Positive(d, spec.length), k.base, k.upper, Precision(spec) - |t|);
  }

  /** The digit loop of the printers, which fills the buffer from its end. */
  method FillDigits(buf: array<char>, d: int, k: Kind) returns (w: nat)
    requires Generated(k) && buf.Length == 25 && d < 0x1_0000_0000_0000_0000
    modifies buf
    ensures w <= 24 && buf[w..24] == Numeral(d, k.base, k.upper)
  {
    hide Numeral, Power, DigitChar;
    w := 24;
    var v := d;
    WordFits(k.base);
    assert buf[24..24] == "";
    while v > 0
      invariant w <= 24 && v < Power(k.base, w)
      invariant Numeral(v, k.base, k.upper) + buf[w..24] == Numeral(d, k.base, k.upper)
      decreases v
    {
      OneDigitLess(v, k.base, w);
      QuotientLess(v, k.base);
      LastDigit(v, k.base, k.upper);
      ghost var tail := buf[w..24];
      w := w - 1;
      buf[w] := DigitChar(v % k.base, k.upper);
      assert buf[w..24] == [buf[w]] + tail;
      v := v / k.base;
    }
    NothingToWrite(v, k.base, k.upper);
  }

  lemma LastDigit(d: int, base: nat, upper: bool)
    requires 2 <= base <= 16 && d > 0
    ensures Numeral(d, base, upper) == Numeral(d / base, base, upper) + [DigitChar(d % base, upper)]
  {
  }

  /** The last part of INTEGER_PRINTER: a field with a sign, a prefix, and digits with zeros before them. */
  method Emit(dev: Device, spec: Spec, sign: string, prefix: string, prefixLen: nat, digits: string, precision: nat) returns (ret: nat)
    requires prefixLen <= |prefix|
    modifies dev
    ensures dev.out == old(dev.out) + Field(spec, sign, prefix[..prefixLen], digits, precision)
    ensures ret == |Field(spec, sign, prefix[..prefixLen], digits, precision)|
  {
    var used := |sign| + Max(precision, |digits|) + prefixLen;
    ret := 0;
    if '-' !in spec.flags {
      ret := dev.Pad(if '0' in spec.flags then '0' else ' ', used, spec.width);
    }
    var n := Body(dev, sign, prefix, prefixLen, digits, precision);
    ret := ret + n;
    if '-' in spec.flags {
      n := dev.Pad(' ', used, spec.width);
      ret := ret + n;
    }
  }

  method Body(dev: Device, sign: string, prefix: string, prefixLen: nat, digits: string, precision: nat) returns (ret: nat)
    requires prefixLen <= |prefix|
    modifies dev
    ensures dev.out == old(dev.out) + (sign + prefix[..prefixLen] + Filled(digits, precision))
    ensures ret == |sign| + prefixLen + Max(precision, |digits|)
  {
    hide Repeat;
    ret := 0;
    var n := dev.Puts(sign);
    ret := ret + n;
    n := dev.Putns(prefix, prefixLen);
    ret := ret + prefixLen;
    n := dev.Pad('0', |digits|, precision);
    ret := ret + n;
    n := dev.Puts(digits);
    ret := ret + n;
  }

  /** INTEGER_PRINTER */
  method PrintInteger(dev: Device, spec: Spec, d: int, k: Kind) returns (ret: nat)
    requires Generated(k) && InType(d, spec.length, k.signed)
    modifies dev
    ensures dev.out == old(dev.out) + IntegerText(spec, d, k) && ret == |IntegerText(spec, d, k)|
  {
    hide Numeral, Padded, Repeat;
    var sign, v := "", d;
    if v < 0 {
      sign := "-";
      v := if v == -Half(spec.length) then v else -v;
    } else if '+' in spec.flags {
      sign := "+";
    } else if ' ' in spec.flags {
      sign := " ";
    }
    var buf := new char[25];
    var w := FillDigits(buf, v, k);
    var prefixLen := if '#' in spec.flags then |k.prefix| else 0;
    assert k.prefix[..prefixLen] == PrefixText(spec, k);
    ret := Emit(dev, spec, sign, k.prefix, prefixLen, buf[w..24], if spec.precise then spec.precision else 1);
  }

  /** %s: the precision limits how much of the text is written. */
  function StringText(spec: Spec, t: string): string {
    Padded(spec, if spec.precise && spec.precision < |t| then t[..spec.precision] else t, ' ')
  }

  method PrintString(dev: Device, spec: Spec, t: string) returns (ret: nat)
    modifies dev
    ensures dev.out == old(dev.out) + StringText(spec, t) && ret == |StringText(spec, t)|
  {
    var chars := if spec.precise && spec.precision < |t| then spec.precision else |t|;
    ret := 0;
    if '-' !in spec.flags {
      ret := dev.Pad(' ', chars, spec.width);
    }
    assert t[..|t|] == t;
    var n := dev.Putns(t, chars);
    ret := ret + n;
    if '-' in spec.flags {
      n := dev.Pad(' ', chars, spec.width);
      ret := ret + n;
    }
  }

  /** What one conversion writes, and the arguments it leaves; Wrong if its argument is missing or of the other kind. */
  datatype Conversion = Converted(text: string, args: seq<Arg>) | Wrong

  predicate IsInteger(c: char) { c in {'d', 'i', 'u', 'o', 'x', 'X'} }

  function KindOf(c: char): (k: Kind)
    ensures Generated(k)
  {
    if c == 'd' || c == 'i' then DECIMAL else if c == 'u' then UNSIGNED else if c == 'o' then OCTAL else if c == 'x' then HEX else UPPER_HEX
  }

  function Convert(spec: Spec, args: seq<Arg>): (r: Conversion) {
    var c := spec.specifier;
    if IsInteger(c) then
      if args != [] && args[0].Number? then
        Converted(IntegerText(spec, Typed(args[0].bits, spec.length, KindOf(c).signed), KindOf(c)), args[1..])
      else Wrong
    else if c == 's' then
      if args != [] && args[0].Text? then Converted(StringText(spec, args[0].text), args[1..]) else Wrong
    else if c == 'c' then
      if args != [] && args[0].Number? then Converted([(args[0].bits % 256) as char], args[1..]) else Wrong
    else Converted(if c == '%' then "%" else "", args)
  }

  method PrintConversion(dev: Device, spec: Spec, args: seq<Arg>) returns (ret: nat, rest: seq<Arg>, ok: bool)
    modifies dev
    ensures ok <==> Convert(spec, args).Converted?
    ensures if ok then dev.out == old(dev.out) + Convert(spec, args).text && rest == Convert(spec, args).args else dev.out == old(dev.out)
    ensures ret == if ok then |Convert(spec, args).text| else 0
  {
    hide IntegerText, StringText, Typed;
    var c := spec.specifier;
    ret, rest, ok := 0, args, true;
    if IsInteger(c) || c == 's' || c == 'c' {
      if args == [] || args[0].Text? != (c == 's') {
        return 0, args, false;
      }
      rest := args[1..];
      if IsInteger(c) {
        ret := PrintInteger(dev, spec, Typed(args[0].bits, spec.length, KindOf(c).signed), KindOf(c));
      } else if c == 's' {
        ret := PrintString(dev, spec, args[0].text);
      } else {
        dev.Putc((args[0].bits % 256) as char);
        ret := 1;
      }
    } else if c == '%' {
      dev.Putc('%');
      ret := 1;
    }
  }

  /**
    What the whole format writes, and the arguments that are left. It is not complete if the format
    ends within a specifier or an argument is missing: what happens then is not defined.
   */
  datatype Output = Output(text: string, args: seq<Arg>, complete: bool)

  function Before(t: string, o: Output): Output { o.(text := t + o.text) }

  function Expand(f: string, i: nat, args: seq<Arg>): (r: Output)
    decreases |f| - i
  {
    if i >= |f| then Output("", args, true)
    else if f[i] != '%' then Before([f[i]], Expand(f, i + 1, args))
    else
      var p := Parse(f, i, args);
      if p.Unusable? then Output("", args, false) else
        var c := Convert(p.spec, p.args);
        if c.Wrong? then Output("", args, false)
        else if p.at > |f| then Output(c.text, c.args, false)
        else Before(c.text, Expand(f, p.at, c.args))
  }

  /** vdprintf returns the number of characters it writes. */
  method Vdprintf(dev: Device, format: string, args: seq<Arg>) returns (ret: nat, ok: bool)
    modifies dev
    ensures dev.out == old(dev.out) + Expand(format, 0, args).text
    ensures ret == |Expand(format, 0, args).text| && ok == Expand(format, 0, args).complete
  {
    hide Parse, Convert;
    var i, left: seq<Arg> := 0, args;
    ret, ok := 0, true;
    while i < |format|
      invariant i <= |format|
      invariant ok
      invariant dev.out + Expand(format, i, left).text == old(dev.out) + Expand(format, 0, args).text
      invariant ret + |Expand(format, i, left).text| == |Expand(format, 0, args).text|
      invariant Expand(format, i, left).complete == Expand(format, 0, args).complete
      decreases |format| - i
    {
      if format[i] == '%' {
        var p := ParseFormatSpecifier(format, i, left);
        if p.Unusable? {
          return ret, false;
        }
        var n, rest, converted := PrintConversion(dev, p.spec, p.args);
        ret := ret + n;
        if !converted || p.at > |format| {
          return ret, false;
        }
        i, left := p.at, rest;
      } else {
        dev.Putc(format[i]);
        ret := ret + 1;
        i := i + 1;
      }
    }
  }

  lemma {:induction false} ExpandShift(f: string, g: string, i: nat, args: seq<Arg>)
    ensures Expand(f + g, |f| + i, args) == Expand(g, i, args)
    decreases |g| - i
  {
    hide Parse, Convert;
    if i < |g| {
      if g[i] != '%' {
        ExpandShift(f, g, i + 1, args);
      } else {
        ParseShift(f, g, i, args);
        var p := Parse(g, i, args);
        if p.Parsed? && Convert(p.spec, p.args).Converted? && p.at <= |g| {
          ExpandShift(f, g, p.at, Convert(p.spec, p.args).args);
        }
      }
    }
  }

  /** More arguments do not change a conversion that has its own. */
  lemma ConvertMore(spec: Spec, args: seq<Arg>, more: seq<Arg>)
    requires Convert(spec, args).Converted?
    ensures Convert(spec, args + more) == Converted(Convert(spec, args).text, Convert(spec, args).args + more)
  {
    hide IntegerText, StringText, Typed;
    if args != [] {
      assert (args + more)[1..] == args[1..] + more;
    }
  }

  /**
    Formats compose: a complete format followed by another writes what the first writes, and then
    what the second writes with the arguments the first leaves.
   */
  lemma {:induction false} Composes(f: string, g: string, i: nat, args: seq<Arg>, more: seq<Arg>)
    requires i <= |f| && Expand(f, i, args).complete
    ensures Expand(f + g, i, args + more) == Before(Expand(f, i, args).text, Expand(g, 0, Expand(f, i, args).args + more))
    decreases |f| - i
  {
    hide Parse, Convert;
    if i == |f| {
      ExpandShift(f, g, 0, args + more);
    } else if f[i] != '%' {
      Composes(f, g, i + 1, args, more);
    } else {
      var p := Parse(f, i, args);
      ParseStable(f, g, i, args, more);
      ConvertMore(p.spec, p.args, more);
      Composes(f, g, p.at, Convert(p.spec, p.args).args, more);
    }
  }

  /** A format that is one integer conversion writes its argument, which can be read back from what is written. */
  lemma PrintsArgument(spec: Spec, bits: nat)
    requires Writable(spec) && IsInteger(spec.specifier)
    ensures var k := KindOf(spec.specifier); var d := Typed(bits, spec.length, k.signed);
      && Expand(Render(spec), 0, [Number(bits)]) == Output(IntegerText(spec, d, k), [], true)
      && (ValueOf(SignText(spec, d < 0), DigitText(spec, d, k), k.base) == d <==> d != -Half(spec.length))
  {
    hide Parse, IntegerText, Typed, Numeral, DigitText, ValueOf, FlagText, LengthText, PrecisionText, Decimal, KindOf;
    var k := KindOf(spec.specifier);
    IntegerReadBack(spec, Typed(bits, spec.length, k.signed), k);
    ReadsBack(spec, "", [Number(bits)]);
    assert Render(spec) + "" == Render(spec);
    assert [Number(bits)][1..] == [];
    StartsWithPercent(spec);
  }

  lemma StartsWithPercent(spec: Spec)
    ensures |Render(spec)| > 0 && Render(spec)[0] == '%'
  {
  }

  /** A format that is one specifier, however it is written, prints what its conversion writes of the arguments it leaves. */
  lemma PrintsOne(w: Written, args: seq<Arg>)
    requires IsWritten(w)
    ensures var p := Parse(WrittenText(w), 0, args);
      && (p.Parsed? <==> AllGiven(w, args)) && (p.Parsed? ==> Means(p.spec, w, args) && p.args == AfterAmounts(w, args))
      && Expand(WrittenText(w), 0, args) ==
           if p.Parsed? && Convert(p.spec, p.args).Converted? then Output(Convert(p.spec, p.args).text, Convert(p.spec, p.args).args, true)
           else Output("", args, false)
  {
    hide Parse, Convert, Means, AllGiven, AfterAmounts, IsWritten;
    var f := WrittenText(w);
    assert f + "" == f;
    ReadsWritten(w, "", args);
    assert |f| > 0 && f[0] == '%';
    OneConversion(f, args);
  }

  lemma OneConversion(f: string, args: seq<Arg>)
    requires |f| > 0 && f[0] == '%' && (Parse(f, 0, args).Parsed? ==> Parse(f, 0, args).at == |f|)
    ensures var p := Parse(f, 0, args);
      Expand(f, 0, args) ==
        if p.Parsed? && Convert(p.spec, p.args).Converted? then Output(Convert(p.spec, p.args).text, Convert(p.spec, p.args).args, true)
        else Output("", args, false)
  {
    hide Parse, Convert;
    var p := Parse(f, 0, args);
    if p.Parsed? && Convert(p.spec, p.args).Converted? {
      var c := Convert(p.spec, p.args);
      assert Expand(f, |f|, c.args) == Output("", c.args, true);
      assert c.text + "" == c.text;
    }
  }

  // ---------- Whole formats ----------

  /** A format is made of ordinary characters and specifiers. */
  datatype Piece = Ordinary(c: char) | Specifier(w: Written)

  predicate IsPiece(p: Piece) { if p.Ordinary? then p.c != '%' else IsWritten(p.w) }

  function FormatText(pieces: seq<Piece>): string {
    if pieces == [] then "" else (if pieces[0].Ordinary? then [pieces[0].c] else WrittenText(pieces[0].w)) + FormatText(pieces[1..])
  }

  /** Ordinary characters are written as they are, a specifier as if it were the whole format; up to one without its arguments. */
  function Printed(pieces: seq<Piece>, args: seq<Arg>): Output {
    if pieces == [] then Output("", args, true)
    else if pieces[0].Ordinary? then Before([pieces[0].c], Printed(pieces[1..], args))
    else
      var o := Expand(WrittenText(pieces[0].w), 0, args);
      if o.complete then Before(o.text, Printed(pieces[1..], o.args)) else o
  }

  /** A format prints its pieces one after the other, each with the arguments that those before it have left. */
  lemma {:induction false} PrintsPieces(pieces: seq<Piece>, args: seq<Arg>)
    requires forall p {:trigger IsPiece(p)} :: p in pieces ==> IsPiece(p)
    ensures Expand(FormatText(pieces), 0, args) == Printed(pieces, args)
  {
    hide Parse, Convert, WrittenText, IsWritten;
    if pieces != [] {
      var p, rest := pieces[0], FormatText(pieces[1..]);
      assert IsPiece(p);
      if p.Ordinary? {
        PrintsPieces(pieces[1..], args);
        ExpandShift([p.c], rest, 0, args);
      } else {
        var o := Expand(WrittenText(p.w), 0, args);
        assert args + [] == args && o.args + [] == o.args;
        if o.complete {
          Composes(WrittenText(p.w), rest, 0, args, []);
          PrintsPieces(pieces[1..], o.args);
        } else {
          StopsHere(p.w, rest, args);
        }
      }
    }
  }

  /** A specifier without its arguments ends the format. */
  lemma StopsHere(w: Written, rest: string, args: seq<Arg>)
    requires IsWritten(w) && !Expand(WrittenText(w), 0, args).complete
    ensures Expand(WrittenText(w) + rest, 0, args) == Expand(WrittenText(w), 0, args)
  {
    hide Parse, Convert, AllGiven, Means, AfterAmounts, IsWritten;
    var f := WrittenText(w);
    assert f + "" == f && args + [] == args;
    ReadsWritten(w, "", args);
    ReadsWritten(w, rest, args);
    assert |f| > 0 && f[0] == '%';
    OneConversion(f, args);
    if Parse(f, 0, args).Parsed? {
      ParseStable(f, rest, 0, args, []);
      assert Parse(f, 0, args).args + [] == Parse(f, 0, args).args;
    }
  }

  // ---------- %p ----------

  lemma {:induction false} NoLetterX(d: int, i: nat)
    requires i < |Numeral(d, 16, false)|
    ensures Numeral(d, 16, false)[i] != 'x'
    decreases if d > 0 then d else 0
  {
    var rest := Numeral(d / 16, 16, false);
    if i < |rest| {
      NoLetterX(d / 16, i);
    }
  }

  /** What the parser makes of %p. */
  predicate IsPointer(spec: Spec) {
    spec.specifier == 'x' && spec.width == 0 && spec.precise && spec.precision == 16 && LengthBits(spec.length) == 64
  }

  /**
    %p writes the 16 digits of a word, whatever its width and precision; a prefix comes before
    them exactly if the flag # asks for it.
   */
  lemma PointerText(spec: Spec, bits: nat)
    requires IsPointer(spec)
    ensures var c := Convert(spec, [Number(bits)]);
      var sign := SignText(spec, false);
      && c.Converted? && c.args == [] && |c.text| == |sign| + (if '#' in spec.flags then 2 else 0) + 16
      && c.text[..|sign|] == sign
      && (c.text[|sign|..|sign| + 2] == "0x" <==> '#' in spec.flags)
      && Read(c.text[|c.text| - 16..], 16) == bits % 0x1_0000_0000_0000_0000
  {
    hide Convert, Filled, Numeral, Read;
    var w := bits % 0x1_0000_0000_0000_0000;
    var sign, prefix, digits := SignText(spec, false), PrefixText(spec, HEX), Filled(Numeral(w, 16, false), 16);
    PointerIs(spec, bits);
    PointerDigits(w);
    var text := sign + prefix + digits;
    assert text[|text| - 16..] == digits;
    if '#' in spec.flags {
      assert text[|sign|..|sign| + 2] == prefix;
    } else {
      assert text[|sign|..|sign| + 2][1] == digits[1];
    }
  }

  lemma PointerIs(spec: Spec, bits: nat)
    requires IsPointer(spec)
    ensures var w := bits % 0x1_0000_0000_0000_0000;
      Convert(spec, [Number(bits)]) == Converted(SignText(spec, false) + PrefixText(spec, HEX) + Filled(Numeral(w, 16, false), 16), [])
  {
    hide Numeral, Filled, Typed, IntegerText;
    WordTyped(bits, spec.length);
    NarrowText(spec, bits % 0x1_0000_0000_0000_0000);
    assert [Number(bits)][1..] == [];
  }

  /** A field without a width. */
  lemma NarrowText(spec: Spec, w: nat)
    requires spec.width == 0 && spec.precise && spec.precision == 16
    ensures IntegerText(spec, w, HEX) == SignText(spec, false) + PrefixText(spec, HEX) + Filled(Numeral(w, 16, false), 16)
  {
    hide Numeral, Repeat, Filled;
    var body := SignText(spec, false) + PrefixText(spec, HEX) + Filled(Numeral(w, 16, false), 16);
    NoPad(-|body|, body, body, "");
  }

  lemma WordTyped(bits: nat, l: Length)
    requires LengthBits(l) == 64
    ensures Typed(bits, l, false) == bits % 0x1_0000_0000_0000_0000
  {
  }

  lemma PointerDigits(w: nat)
    requires w < 0x1_0000_0000_0000_0000
    ensures var digits := Filled(Numeral(w, 16, false), 16); |digits| == 16 && digits[1] != 'x' && Read(digits, 16) == w
  {
    hide Numeral, Read, Repeat;
    var t := Numeral(w, 16, false);
    PointerFits(w);
    ReadBack(w, 16, false, 16 - |t|);
    SecondDigit(t, 16 - |t|, w);
  }

  lemma PointerFits(w: nat)
    requires w < 0x1_0000_0000_0000_0000
    ensures |Numeral(w, 16, false)| <= 16
  {
    assert Power(16, 4) == 0x1_0000 by {
      assert Power(16, 4) == 16 * (16 * (16 * (16 * 1)));
    }
    PowerSum(16, 4, 4);
    PowerSum(16, 8, 8);
    NumeralFits(w, 16, false, 16);
  }

  lemma SecondDigit(t: string, zeros: int, w: nat)
    requires t == Numeral(w, 16, false) && |t| <= 16 && zeros == 16 - |t|
    ensures |Repeat('0', zeros) + t| == 16 && (Repeat('0', zeros) + t)[1] != 'x'
  {
    hide Numeral, Repeat;
    if zeros > 1 {
      RepeatAt('0', zeros, 1);
    } else {
      NoLetterX(w, 1 - zeros);
    }
  }
}
