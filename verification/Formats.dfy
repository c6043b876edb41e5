/** Format specifiers: %[flags][width][.precision][length]specifier */
module Formats {
  import opened Numerals

  datatype Length = Plain | Hh | H | L | Ll

  datatype Spec = Spec(flags: set<char>, precise: bool, width: nat, precision: nat, length: Length, specifier: char)

  /** An argument: a machine word, or a string. */
  datatype Arg = Number(bits: nat) | Text(text: string)

  const FLAGS := {'-', '+', ' ', '#', '0'}
  const TWO_16 := 0x1_0000

  /** The character at i of a C string. */
  function At(s: string, i: nat): char { if i < |s| then s[i] else '\0' }

  predicate IsDigit(c: char) { '0' <= c <= '9' }

  /** The flags from i on, and where they end. */
  function ScanFlags(s: string, i: nat, f: set<char>): (r: (set<char>, nat))
    ensures i <= r.1 && (i <= |s| ==> r.1 <= |s|)
    decreases |s| - i
  {
    if i < |s| && s[i] in FLAGS then ScanFlags(s, i + 1, f + {s[i]}) else (f, i)
  }

  /** The number from i on, modulo 2^16, and where it ends. */
  function ScanNumber(s: string, i: nat, n: nat): (r: (nat, nat))
    ensures i <= r.1 && (i <= |s| ==> r.1 <= |s|)
    decreases |s| - i
  {
    if i < |s| && IsDigit(s[i]) then ScanNumber(s, i + 1, (n * 10 % TWO_16 + DigitValue(s[i])) % TWO_16) else (n, i)
  }

  /** A width or a precision: a number in the format, or an argument; nothing if there is no such argument. */
  datatype Scan = Scan(value: nat, at: nat, args: seq<Arg>) | Misused

  function ScanCount(s: string, i: nat, args: seq<Arg>): (r: Scan)
    ensures r.Scan? ==> i <= r.at && (i <= |s| ==> r.at <= |s|)
  {
    if At(s, i) == '*' then
      if args != [] && args[0].Number? then Scan(args[0].bits % TWO_16, i + 1, args[1..]) else Misused
    else
      var (n, at) := ScanNumber(s, i, 0);
      Scan(n, at, args)
  }

  function ScanLength(s: string, i: nat): (r: (Length, nat))
    ensures i <= r.1 && (i <= |s| ==> r.1 <= |s|)
  {
    match At(s, i)
    case 'h' => if At(s, i + 1) == 'h' then (Hh, i + 2) else (H, i + 1)
    case 'l' => if At(s, i + 1) == 'l' then (Ll, i + 2) else (L, i + 1)
    case 'j' => (Ll, i + 1)
    case 'z' => (L, i + 1)
    case 't' => (L, i + 1)
    case _ => (Plain, i)
  }

  datatype Parsed = Parsed(spec: Spec, at: nat, args: seq<Arg>) | Unusable

  /** %p is %x with all the digits of a pointer. */
  function Pointer(spec: Spec): Spec {
    if spec.specifier == 'p' then spec.(precise := true, width := 0, precision := 16, length := L, specifier := 'x') else spec
  }

  function ScanPrecision(s: string, i: nat, args: seq<Arg>): (r: Scan)
    ensures r.Scan? ==> i <= r.at
  {
    if At(s, i) == '.' then ScanCount(s, i + 1, args) else Scan(0, i, args)
  }

  /** The format specifier whose % is at i. */
  function Parse(s: string, i: nat, args: seq<Arg>): (r: Parsed)
    ensures r.Parsed? ==> r.at > i
  {
    var (flags, w) := ScanFlags(s, i + 1, {});
    var width := ScanCount(s, w, args);
    if width.Misused? then Unusable else
      var precision := ScanPrecision(s, width.at, width.args);
      if precision.Misused? then Unusable else
        var (length, c) := ScanLength(s, precision.at);
        Parsed(Pointer(Spec(flags, At(s, width.at) == '.', width.value, precision.value, length, At(s, c))), c + 1, precision.args)
  }

  /** atoi */
  method Atoi(s: string, i: nat) returns (n: nat, at: nat)
    requires i <= |s|
    ensures (n, at) == ScanNumber(s, i, 0) && at <= |s|
  {
    n, at := 0, i;
    while IsDigit(At(s, at))
      invariant at <= |s| && ScanNumber(s, at, n) == ScanNumber(s, i, 0)
      decreases |s| - at
    {
      n := n * 10 % TWO_16;
      n := (n + DigitValue(s[at])) % TWO_16;
      at := at + 1;
    }
  }

  /** A count of the format, as the parser reads it. */
  method ReadCount(s: string, i: nat, args: seq<Arg>) returns (r: Scan)
    requires i <= |s|
    ensures r == ScanCount(s, i, args)
  {
    if At(s, i) == '*' {
      if args == [] || args[0].Text? {
        return Misused;
      }
      r := Scan(args[0].bits % TWO_16, i + 1, args[1..]);
    } else {
      var n, at := Atoi(s, i);
      r := Scan(n, at, args);
    }
  }

  /** The length modifier. */
  method ReadLength(s: string, i: nat) returns (length: Length, at: nat)
    requires i <= |s|
    ensures (length, at) == ScanLength(s, i)
  {
    length, at := Plain, i;
    if At(s, at) == 'h' {
      at := at + 1;
      length := H;
      if At(s, at) == 'h' {
        at := at + 1;
        length := Hh;
      }
    } else if At(s, at) == 'l' {
      at := at + 1;
      length := L;
      if At(s, at) == 'l' {
        at := at + 1;
        length := Ll;
      }
    } else if At(s, at) == 'j' {
      at := at + 1;
      length := Ll;
    } else if At(s, at) == 'z' || At(s, at) == 't' {
      at := at + 1;
      length := L;
    }
  }

  /** parse_format_specifier */
  method ParseFormatSpecifier(s: string, i: nat, args: seq<Arg>) returns (r: Parsed)
    requires i < |s|
    ensures r == Parse(s, i, args)
  {
    hide ScanCount, ScanLength;
    var flags: set<char>, format := {}, i + 1;
    while At(s, format) in FLAGS
      invariant format <= |s| && ScanFlags(s, format, flags) == ScanFlags(s, i + 1, {})
      decreases |s| - format
    {
      flags := flags + {s[format]};
      format := format + 1;
    }
    var width := ReadCount(s, format, args);
    if width.Misused? {
      return Unusable;
    }
    format := width.at;
    var precise, precision := false, Scan(0, format, width.args);
    if At(s, format) == '.' {
      precise := true;
      precision := ReadCount(s, format + 1, width.args);
      if precision.Misused? {
        return Unusable;
      }
    }
    format := precision.at;
    var length;
    length, format := ReadLength(s, format);
    var specifier := At(s, format);
    r := Parsed(Pointer(Spec(flags, precise, width.value, precision.value, length, specifier)), format + 1, precision.args);
  }

  // A specifier means the same whatever follows it.

  lemma {:induction false} FlagsStable(s: string, g: string, i: nat, f: set<char>)
    requires i <= |s| && ScanFlags(s, i, f).1 < |s|
    ensures ScanFlags(s + g, i, f) == ScanFlags(s, i, f)
    decreases |s| - i
  {
    if s[i] in FLAGS {
      FlagsStable(s, g, i + 1, f + {s[i]});
    }
  }

  lemma {:induction false} NumberStable(s: string, g: string, i: nat, n: nat)
    requires i <= |s| && ScanNumber(s, i, n).1 < |s|
    ensures ScanNumber(s + g, i, n) == ScanNumber(s, i, n)
    decreases |s| - i
  {
    if IsDigit(s[i]) {
      NumberStable(s, g, i + 1, (n * 10 % TWO_16 + DigitValue(s[i])) % TWO_16);
    }
  }

  function WithMore(r: Scan, more: seq<Arg>): Scan { if r.Scan? then r.(args := r.args + more) else r }

  lemma CountStable(s: string, g: string, i: nat, args: seq<Arg>, more: seq<Arg>)
    requires i <= |s| && ScanCount(s, i, args).Scan? && ScanCount(s, i, args).at < |s|
    ensures ScanCount(s + g, i, args + more) == WithMore(ScanCount(s, i, args), more)
  {
    if At(s, i) == '*' {
      assert (args + more)[1..] == args[1..] + more;
    } else {
      NumberStable(s, g, i, 0);
    }
  }

  lemma LengthStable(s: string, g: string, i: nat)
    requires i <= |s| && ScanLength(s, i).1 < |s|
    ensures ScanLength(s + g, i) == ScanLength(s, i)
  {
  }

  lemma PrecisionStable(s: string, g: string, i: nat, args: seq<Arg>, more: seq<Arg>)
    requires i < |s| && ScanPrecision(s, i, args).Scan? && ScanPrecision(s, i, args).at < |s|
    ensures ScanPrecision(s + g, i, args + more) == WithMore(ScanPrecision(s, i, args), more)
  {
    if At(s, i) == '.' {
      CountStable(s, g, i + 1, args, more);
    }
  }

  /** What a specifier means depends neither on the text nor on the arguments after its own. */
  lemma ParseStable(s: string, g: string, i: nat, args: seq<Arg>, more: seq<Arg>)
    requires i < |s| && Parse(s, i, args).Parsed? && Parse(s, i, args).at <= |s|
    ensures Parse(s + g, i, args + more) == Parse(s, i, args).(args := Parse(s, i, args).args + more)
  {
    hide ScanFlags, ScanCount, ScanPrecision, ScanLength;
    var (flags, w) := ScanFlags(s, i + 1, {});
    var width := ScanCount(s, w, args);
    PrecisionRange(s, width.at, width.args);
    var precision := ScanPrecision(s, width.at, width.args);
    var (length, c) := ScanLength(s, precision.at);
    FlagsStable(s, g, i + 1, {});
    CountStable(s, g, w, args, more);
    PrecisionStable(s, g, width.at, width.args, more);
    LengthStable(s, g, precision.at);
  }

  lemma PrecisionRange(s: string, i: nat, args: seq<Arg>)
    requires i <= |s| && ScanPrecision(s, i, args).Scan?
    ensures i <= ScanPrecision(s, i, args).at <= |s|
  {
  }

  lemma ModStep(x: nat, d: nat)
    ensures (x % TWO_16 * 10 % TWO_16 + d) % TWO_16 == (x * 10 + d) % TWO_16
  {
    var q, r := x / TWO_16, x % TWO_16;
    var q', r' := r * 10 / TWO_16, r * 10 % TWO_16;
    assert x * 10 + d == (q * 10 + q') * TWO_16 + (r' + d);
  }

  /** atoi reads a decimal numeral modulo 2^16. */
  lemma {:induction false} AtoiReads(s: string, i: nat, j: nat)
    requires i <= j <= |s| && forall k {:trigger s[k]} :: i <= k < j ==> IsDigit(s[k])
    ensures ScanNumber(s, i, 0) == ScanNumber(s, j, Read(s[i..j], 10) % TWO_16)
    decreases j
  {
    hide Read, DigitValue;
    if i == j {
      assert s[i..j] == "";
      ReadNothing(10);
    } else {
      AtoiReads(s, i, j - 1);
      assert s[i..j] == s[i..j - 1] + [s[j - 1]];
      ReadMore(s[i..j - 1], s[j - 1], 10);
      ModStep(Read(s[i..j - 1], 10), DigitValue(s[j - 1]));
    }
  }

  function Decimal(n: nat): string { Numeral(n, 10, false) }

  /** A number written in decimal is read back by atoi. */
  lemma CountReadBack(pre: string, n: nat, post: string, args: seq<Arg>)
    requires n < TWO_16 && post != "" && !IsDigit(post[0]) && (n == 0 ==> post[0] != '*')
    ensures ScanCount(pre + Decimal(n) + post, |pre|, args) == Scan(n, |pre| + |Decimal(n)|, args)
  {
    hide Numeral, Read;
    var t := Decimal(n);
    var s := pre + t + post;
    var i, j := |pre|, |pre| + |t|;
    assert s[i..j] == t;
    DecimalDigits(n);
    forall k {:trigger s[k]} | i <= k < j ensures IsDigit(s[k]) {
      assert s[k] == t[k - i];
    }
    assert s[j] == post[0];
    AtoiReads(s, i, j);
    ReadBack(n, 10, false, 0);
    assert Repeat('0', 0) + t == t;
    NothingToWrite(n, 10, false);
    if n == 0 {
      assert s[i] == post[0];
    } else {
      assert s[i] == t[0];
    }
  }

  function FlagText(f: set<char>): (t: string)
    ensures forall k {:trigger t[k]} :: 0 <= k < |t| ==> t[k] in FLAGS
    ensures f <= FLAGS ==> f == set c | c in t
  {
    (if '-' in f then "-" else "") + (if '+' in f then "+" else "") + (if ' ' in f then " " else "")
    + (if '#' in f then "#" else "") + (if '0' in f then "0" else "")
  }

  function LengthText(l: Length): string {
    match l
    case Plain => ""
    case Hh => "hh"
    case H => "h"
    case L => "l"
    case Ll => "ll"
  }

  function PrecisionText(spec: Spec): string { if spec.precise then "." + Decimal(spec.precision) else "" }

  /** A specifier written out. */
  function Render(spec: Spec): string {
    "%" + FlagText(spec.flags) + Decimal(spec.width) + PrecisionText(spec)
    + LengthText(spec.length) + [spec.specifier]
  }

  /** The specifiers the printer knows; the others it skips, and %p stands for a %x. */
  predicate Writable(spec: Spec) {
    && spec.flags <= FLAGS && spec.width < TWO_16 && spec.precision < TWO_16 && (!spec.precise ==> spec.precision == 0)
    && spec.specifier in {'d', 'i', 'u', 'o', 'x', 'X', 's', 'c', '%'}
  }

  lemma {:induction false} FlagsReadBack(pre: string, t: string, post: string, k: nat, f: set<char>)
    requires k <= |t| && forall j {:trigger t[j]} :: 0 <= j < |t| ==> t[j] in FLAGS
    requires post != "" && post[0] !in FLAGS && f == set c | c in t[..k]
    ensures ScanFlags(pre + t + post, |pre| + k, f) == (set c | c in t, |pre| + |t|)
    decreases |t| - k
  {
    var s := pre + t + post;
    if k < |t| {
      assert s[|pre| + k] == t[k];
      assert t[..k + 1] == t[..k] + [t[k]];
      FlagsReadBack(pre, t, post, k + 1, f + {t[k]});
    } else {
      assert s[|pre| + k] == post[0];
      assert t[..k] == t;
    }
  }

  lemma LengthReadBack(pre: string, l: Length, c: char, post: string)
    requires c in {'d', 'i', 'u', 'o', 'x', 'X', 's', 'c', '%'}
    ensures ScanLength(pre + LengthText(l) + [c] + post, |pre|) == (l, |pre| + |LengthText(l)|)
  {
    var s := pre + LengthText(l) + [c] + post;
    assert s[|pre| + |LengthText(l)|] == c;
    if l != Plain {
      assert s[|pre|] == LengthText(l)[0];
      if |LengthText(l)| == 2 {
        assert s[|pre| + 1] == LengthText(l)[1];
      }
    }
  }

  lemma PrecisionReadBack(pre: string, spec: Spec, post: string, args: seq<Arg>)
    requires Writable(spec) && post != "" && !IsDigit(post[0]) && post[0] != '*' && post[0] != '.'
    ensures ScanPrecision(pre + PrecisionText(spec) + post, |pre|, args) == Scan(spec.precision, |pre| + |PrecisionText(spec)|, args)
    ensures At(pre + PrecisionText(spec) + post, |pre|) == '.' <==> spec.precise
  {
    hide ScanCount;
    var s := pre + PrecisionText(spec) + post;
    if spec.precise {
      assert s == (pre + ".") + Decimal(spec.precision) + post;
      assert s[|pre|] == '.';
      CountReadBack(pre + ".", spec.precision, post, args);
    } else {
      assert s[|pre|] == post[0];
    }
  }

  /** What stands after a number, a precision and the flags. */
  lemma Heads(spec: Spec, rest: string)
    requires Writable(spec)
    ensures var t := LengthText(spec.length) + [spec.specifier] + rest; !IsDigit(t[0]) && t[0] != '*' && t[0] != '.' && t[0] !in FLAGS
    ensures var t := PrecisionText(spec) + (LengthText(spec.length) + [spec.specifier] + rest); !IsDigit(t[0]) && t[0] != '*' && t[0] !in FLAGS
    ensures (Decimal(spec.width) + (PrecisionText(spec) + (LengthText(spec.length) + [spec.specifier] + rest)))[0] !in FLAGS
  {
    hide Numeral;
    var t3 := LengthText(spec.length) + [spec.specifier] + rest;
    assert t3[0] == if spec.length == Plain then spec.specifier else LengthText(spec.length)[0];
    var t2 := PrecisionText(spec) + t3;
    assert t2[0] == if spec.precise then '.' else t3[0];
    DecimalDigits(spec.width);
    NothingToWrite(spec.width, 10, false);
    var w := Decimal(spec.width);
    assert (w + t2)[0] == if spec.width > 0 then w[0] else t2[0];
  }

  /** Every specifier that is written out is read back, whatever follows it. */
  lemma ReadsBack(spec: Spec, rest: string, args: seq<Arg>)
    requires Writable(spec)
    ensures Parse(Render(spec) + rest, 0, args) == Parsed(spec, |Render(spec)|, args)
  {
    hide Numeral, ScanFlags, ScanCount, ScanPrecision, ScanLength, FlagText, LengthText, PrecisionText, Decimal;
    var f, w, p, l := FlagText(spec.flags), Decimal(spec.width), PrecisionText(spec), LengthText(spec.length);
    var t3 := l + [spec.specifier] + rest;
    var t2 := p + t3;
    var s := Render(spec) + rest;
    Heads(spec, rest);
    assert s == "%" + f + (w + t2);
    FlagsReadBack("%", f, w + t2, 0, {});
    assert s == ("%" + f) + w + t2;
    CountReadBack("%" + f, spec.width, t2, args);
    assert s == ("%" + f + w) + p + t3;
    PrecisionReadBack("%" + f + w, spec, t3, args);
    assert s == ("%" + f + w + p) + l + [spec.specifier] + rest;
    LengthReadBack("%" + f + w + p, spec.length, spec.specifier, rest);
    assert s[|"%" + f + w + p + l|] == spec.specifier;
  }

  // Nor does it matter what stands before a specifier.

  lemma {:induction false} FlagsShift(f: string, g: string, i: nat, x: set<char>)
    ensures ScanFlags(f + g, |f| + i, x) == (ScanFlags(g, i, x).0, |f| + ScanFlags(g, i, x).1)
    decreases |g| - i
  {
    if i < |g| && g[i] in FLAGS {
      FlagsShift(f, g, i + 1, x + {g[i]});
    }
  }

  lemma {:induction false} NumberShift(f: string, g: string, i: nat, n: nat)
    ensures ScanNumber(f + g, |f| + i, n) == (ScanNumber(g, i, n).0, |f| + ScanNumber(g, i, n).1)
    decreases |g| - i
  {
    if i < |g| && IsDigit(g[i]) {
      NumberShift(f, g, i + 1, (n * 10 % TWO_16 + DigitValue(g[i])) % TWO_16);
    }
  }

  function Later(r: Scan, n: nat): Scan { if r.Scan? then r.(at := n + r.at) else r }

  lemma CountShift(f: string, g: string, i: nat, args: seq<Arg>)
    ensures ScanCount(f + g, |f| + i, args) == Later(ScanCount(g, i, args), |f|)
  {
    NumberShift(f, g, i, 0);
  }

  lemma PrecisionShift(f: string, g: string, i: nat, args: seq<Arg>)
    ensures ScanPrecision(f + g, |f| + i, args) == Later(ScanPrecision(g, i, args), |f|)
    ensures At(f + g, |f| + i) == At(g, i)
  {
    CountShift(f, g, i + 1, args);
  }

  lemma LengthShift(f: string, g: string, i: nat)
    ensures ScanLength(f + g, |f| + i) == (ScanLength(g, i).0, |f| + ScanLength(g, i).1)
  {
  }

  lemma AtShift(f: string, g: string, i: nat)
    ensures At(f + g, |f| + i) == At(g, i)
  {
  }

  lemma ParseShift(f: string, g: string, i: nat, args: seq<Arg>)
    ensures Parse(f + g, |f| + i, args) == var p := Parse(g, i, args); if p.Parsed? then p.(at := |f| + p.at) else p
  {
    hide ScanFlags, ScanCount, ScanPrecision, ScanLength, At, Pointer;
    var (flags, w) := ScanFlags(g, i + 1, {});
    var width := ScanCount(g, w, args);
    FlagsShift(f, g, i + 1, {});
    CountShift(f, g, w, args);
    if width.Scan? {
      PrecisionShift(f, g, width.at, width.args);
      var precision := ScanPrecision(g, width.at, width.args);
      if precision.Scan? {
        LengthShift(f, g, precision.at);
        AtShift(f, g, ScanLength(g, precision.at).1);
      }
    }
  }

  // ---------- Every way to write a specifier ----------

  /** A width or precision as it is written: a number, or an asterisk for the next argument. */
  datatype Amount = Fixed(n: nat) | Star

  datatype Written = Written(flags: string, width: Amount, precise: bool, precision: Amount, modifier: string, specifier: char)

  const MODIFIERS := {"", "hh", "h", "l", "ll", "j", "z", "t"}

  predicate IsWritten(w: Written) {
    && (forall k :: 0 <= k < |w.flags| ==> w.flags[k] in FLAGS)
    && (w.width.Fixed? ==> w.width.n < TWO_16) && (w.precision.Fixed? ==> w.precision.n < TWO_16)
    && (!w.precise ==> w.precision == Fixed(0)) && w.modifier in MODIFIERS
    && w.specifier in {'d', 'i', 'u', 'o', 'x', 'X', 's', 'c', '%', 'p'}
  }

  function AmountText(a: Amount): string { if a.Star? then "*" else Decimal(a.n) }

  /** What stands before the modifier. */
  function DotText(w: Written): string { if w.precise then "." + AmountText(w.precision) else "" }

  function WrittenText(w: Written): string { "%" + w.flags + AmountText(w.width) + DotText(w) + w.modifier + [w.specifier] }

  /** The argument an asterisk takes is a number. */
  predicate Given(a: Amount, args: seq<Arg>) { a.Star? ==> args != [] && args[0].Number? }

  function Amounts(a: Amount, args: seq<Arg>): nat
    requires Given(a, args)
  {
    if a.Star? then args[0].bits % TWO_16 else a.n
  }

  function AfterAmount(a: Amount, args: seq<Arg>): seq<Arg>
    requires Given(a, args)
  {
    if a.Star? then args[1..] else args
  }

  /** The types of the modifiers: char, short, int, long, long long, intmax_t, size_t and ptrdiff_t, by their bits. */
  function TypeBits(modifier: string): nat {
    if modifier == "hh" then 8 else if modifier == "h" then 16 else if modifier == "" then 32 else 64
  }

  function LengthBits(l: Length): nat {
    match l
    case Hh => 8
    case H => 16
    case Plain => 32
    case L => 64
    case Ll => 64
  }

  /** Every asterisk has its number. */
  predicate AllGiven(w: Written, args: seq<Arg>) { Given(w.width, args) && Given(w.precision, AfterAmount(w.width, args)) }

  function AfterAmounts(w: Written, args: seq<Arg>): seq<Arg>
    requires AllGiven(w, args)
  {
    AfterAmount(w.precision, AfterAmount(w.width, args))
  }

  /** The specification says what is written; %p stands for %x with the 16 digits of a word. */
  predicate Means(spec: Spec, w: Written, args: seq<Arg>)
    requires AllGiven(w, args)
  {
    && (forall c :: c in spec.flags <==> c in w.flags)
    && if w.specifier == 'p' then
         spec.specifier == 'x' && spec.width == 0 && spec.precise && spec.precision == 16 && LengthBits(spec.length) == 64
       else
         && spec.specifier == w.specifier && spec.width == Amounts(w.width, args) && spec.precise == w.precise
         && spec.precision == Amounts(w.precision, AfterAmount(w.width, args)) && LengthBits(spec.length) == TypeBits(w.modifier)
  }

  /** Before post, a number in decimal or an asterisk is read as what it stands for. */
  lemma AmountReadBack(pre: string, a: Amount, post: string, args: seq<Arg>)
    requires (a.Fixed? ==> a.n < TWO_16) && post != "" && !IsDigit(post[0]) && post[0] != '*'
    ensures ScanCount(pre + AmountText(a) + post, |pre|, args) ==
      if Given(a, args) then Scan(Amounts(a, args), |pre| + |AmountText(a)|, AfterAmount(a, args)) else Misused
  {
    hide Numeral;
    if a.Star? {
      assert (pre + "*" + post)[|pre|] == '*';
    } else {
      CountReadBack(pre, a.n, post, args);
    }
  }

  /** After a modifier and a specifier, the length is that of the modifier's type. */
  lemma ModifierReadBack(pre: string, modifier: string, c: char, post: string)
    requires modifier in MODIFIERS && c in {'d', 'i', 'u', 'o', 'x', 'X', 's', 'c', '%', 'p'}
    ensures var (l, at) := ScanLength(pre + modifier + [c] + post, |pre|);
      LengthBits(l) == TypeBits(modifier) && at == |pre| + |modifier|
  {
    var s := pre + modifier + [c] + post;
    assert s[|pre| + |modifier|] == c;
    if modifier != "" {
      assert s[|pre|] == modifier[0];
      if |modifier| == 2 {
        assert s[|pre| + 1] == modifier[1];
      }
    }
  }

  lemma DotReadBack(pre: string, w: Written, post: string, args: seq<Arg>)
    requires IsWritten(w) && post != "" && !IsDigit(post[0]) && post[0] != '*' && post[0] != '.'
    ensures ScanPrecision(pre + DotText(w) + post, |pre|, args) ==
      if Given(w.precision, args) then Scan(Amounts(w.precision, args), |pre| + |DotText(w)|, AfterAmount(w.precision, args)) else Misused
    ensures At(pre + DotText(w) + post, |pre|) == '.' <==> w.precise
  {
    hide ScanCount, Numeral;
    var s := pre + DotText(w) + post;
    if w.precise {
      assert s == (pre + ".") + AmountText(w.precision) + post;
      assert s[|pre|] == '.';
      AmountReadBack(pre + ".", w.precision, post, args);
    } else {
      assert s[|pre|] == post[0];
    }
  }

  /** What stands after the flags, the width and the precision. */
  lemma WrittenHeads(w: Written, rest: string)
    requires IsWritten(w)
    ensures var t := w.modifier + [w.specifier] + rest; !IsDigit(t[0]) && t[0] != '*' && t[0] != '.' && t[0] !in FLAGS
    ensures var t := DotText(w) + (w.modifier + [w.specifier] + rest); !IsDigit(t[0]) && t[0] != '*' && t[0] !in FLAGS
    ensures (AmountText(w.width) + (DotText(w) + (w.modifier + [w.specifier] + rest)))[0] !in FLAGS
  {
    hide Numeral;
    var t3 := w.modifier + [w.specifier] + rest;
    assert t3[0] == if w.modifier == "" then w.specifier else w.modifier[0];
    var t2 := DotText(w) + t3;
    assert t2[0] == if w.precise then '.' else t3[0];
    var t := AmountText(w.width);
    if w.width.Fixed? {
      DecimalDigits(w.width.n);
      NothingToWrite(w.width.n, 10, false);
    }
    assert (t + t2)[0] == if t != "" then t[0] else t2[0];
  }

  /**
    Every specifier is read as what it says, whatever follows it: the flags, the width and the
    precision, from the text or from the arguments, the size of the modifier's type, and the
    specifier. It cannot be used if an asterisk has no number among the arguments.
   */
  lemma ReadsWritten(w: Written, rest: string, args: seq<Arg>)
    requires IsWritten(w)
    ensures var p := Parse(WrittenText(w) + rest, 0, args);
      && (p.Parsed? <==> AllGiven(w, args))
      && (p.Parsed? ==> Means(p.spec, w, args) && p.at == |WrittenText(w)| && p.args == AfterAmounts(w, args))
  {
    hide Numeral, ScanFlags, ScanCount, ScanPrecision, ScanLength, DotText, AmountText, Amounts, AfterAmount, Given, TypeBits, WrittenText;
    var f, n, p, m := w.flags, AmountText(w.width), DotText(w), w.modifier;
    var t3 := m + [w.specifier] + rest;
    WrittenHeads(w, rest);
    WrittenParts(w, rest);
    FlagsReadBack("%", f, n + (p + t3), 0, {});
    AmountReadBack("%" + f, w.width, p + t3, args);
    if Given(w.width, args) {
      DotReadBack("%" + f + n, w, t3, AfterAmount(w.width, args));
      ModifierReadBack("%" + f + n + p, m, w.specifier, rest);
    }
  }

  /** The text of a specifier, cut at each of its parts. */
  lemma WrittenParts(w: Written, rest: string)
    ensures var f, n, p, m := w.flags, AmountText(w.width), DotText(w), w.modifier;
      var t3, s := m + [w.specifier] + rest, WrittenText(w) + rest;
      && s == "%" + f + (n + (p + t3)) && s == ("%" + f) + n + (p + t3) && s == ("%" + f + n) + p + t3
      && s == ("%" + f + n + p) + m + [w.specifier] + rest
      && |WrittenText(w)| == |f| + |n| + |p| + |m| + 2 && s[|f| + |n| + |p| + |m| + 1] == w.specifier
  {
    hide AmountText, DotText;
  }
}
