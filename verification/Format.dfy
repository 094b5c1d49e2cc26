/** The format language shared by kernel/printf.c's printf and kernel/paniclog.c's vsnprintf: what a format
    and its arguments should print, and the two functions that print it. */
module Format {
  import opened Basics

  const W64: nat := 0x1_0000_0000_0000_0000

  // ----- numerals

  function Digit(d: nat): char
    requires d < 16
  {
    "0123456789abcdef"[d]
  }

  function DigitValue(c: char): nat {
    if '0' <= c <= '9' then c as nat - '0' as nat else if 'a' <= c <= 'f' then c as nat - 'a' as nat + 10 else 0
  }

  /** The number a numeral stands for. */
  function Value(s: string, base: nat): nat {
    if s == "" then 0 else Value(s[..|s| - 1], base) * base + DigitValue(s[|s| - 1])
  }

  function Numeral(x: nat, base: nat): (s: string)
    requires 2 <= base <= 16
    ensures s != ""
    decreases x
  {
    if x < base then [Digit(x)] else Numeral(x / base, base) + [Digit(x % base)]
  }

  lemma DigitBack(d: nat)
    requires d < 16
    ensures DigitValue(Digit(d)) == d
  {
  }

  lemma ValueSnoc(s: string, d: nat, base: nat)
    requires d < 16
    ensures Value(s + [Digit(d)], base) == Value(s, base) * base + d
  {
    DigitBack(d);
    assert (s + [Digit(d)])[..|s|] == s;
  }

  lemma Divided(x: nat, base: nat)
    requires base >= 2
    ensures x / base * base + x % base == x
  {
  }

  /** A numeral evaluates back to its number, and starts with 0 only if it is "0". */
  lemma {:induction false} NumeralValue(x: nat, base: nat)
    requires 2 <= base <= 16
    ensures Value(Numeral(x, base), base) == x
    ensures Numeral(x, base)[0] == '0' ==> x == 0 && Numeral(x, base) == "0"
    decreases x
  {
    if x < base {
      ValueSnoc("", x, base);
      assert "" + [Digit(x)] == [Digit(x)];
    } else {
      NumeralValue(x / base, base);
      ValueSnoc(Numeral(x / base, base), x % base, base);
      Divided(x, base);
    }
  }

  function Pow(b: nat, e: nat): (p: nat)
    ensures b > 0 ==> p > 0
  {
    if e == 0 then 1 else b * Pow(b, e - 1)
  }

  lemma DivBelow(x: nat, base: nat, p: nat)
    requires base >= 2 && x < base * p
    ensures x / base < p
  {
    Divided(x, base);
    if x / base >= p {
      Grows(base, p, x / base);
    }
  }

  lemma Grows(b: nat, p: nat, q: nat)
    requires p <= q
    ensures b * p <= q * b
  {
  }

  lemma {:induction false} NumeralLength(x: nat, base: nat, n: nat)
    requires 2 <= base <= 16 && n > 0 && x < Pow(base, n)
    ensures |Numeral(x, base)| <= n
    decreases n
  {
    if x >= base {
      assert n > 1;
      DivBelow(x, base, Pow(base, n - 1));
      NumeralLength(x / base, base, n - 1);
    }
  }

  /** No 64-bit number needs more than 20 decimal or 16 hexadecimal digits, and a negative one at most 19,
      which leaves room for its sign in printint's buf[20] and in vsnprintf's tmp[24]. */
  lemma NumeralFits(x: nat)
    requires x < W64
    ensures |Numeral(x, 10)| <= 20 && |Numeral(x, 16)| <= 16
    ensures x <= W64 / 2 ==> |Numeral(x, 10)| <= 19
  {
    assert Pow(10, 5) == 100000 && Pow(10, 10) == 10_000_000_000 by {
      assert Pow(10, 1) == 10 && Pow(10, 2) == 100 && Pow(10, 3) == 1000 && Pow(10, 4) == 10000;
      assert Pow(10, 6) == 1_000_000 && Pow(10, 7) == 10_000_000 && Pow(10, 8) == 100_000_000
        && Pow(10, 9) == 1_000_000_000;
    }
    PowAdd(10, 10, 9);
    PowAdd(10, 10, 10);
    assert Pow(10, 9) == 1_000_000_000 by { PowAdd(10, 5, 4); assert Pow(10, 4) == 10000; }
    NumeralLength(x, 10, 20);
    if x <= W64 / 2 {
      NumeralLength(x, 10, 19);
    }
    assert Pow(16, 4) == 65536;
    PowAdd(16, 4, 4);
    PowAdd(16, 8, 8);
    NumeralLength(x, 16, 16);
  }

  lemma {:induction false} PowAdd(b: nat, m: nat, n: nat)
    ensures Pow(b, m + n) == Pow(b, m) * Pow(b, n)
    decreases m
  {
    if m > 0 {
      PowAdd(b, m - 1, n);
      assert Pow(b, m + n) == b * Pow(b, m - 1 + n);
    }
  }

  // ----- directives

  datatype Directive =
    | Text(c: char) | Signed(wide: bool) | Unsigned(wide: bool) | Hex(wide: bool)
    | Pointer | Str | Chr | Unknown(c: char)

  /** The directives of a format string. A lone final '%' ends it; '%%' prints one. */
  function Parse(fmt: string): seq<Directive> {
    if fmt == "" then []
    else if fmt[0] != '%' then [Text(fmt[0])] + Parse(fmt[1..])
    else if |fmt| == 1 then []
    else
      var (d, n) := Conversion(fmt[1..]);
      [d] + Parse(fmt[1 + n..])
  }

  /** The directive that the characters after a '%' spell, and how many of them it takes. */
  function Conversion(s: string): (r: (Directive, nat))
    requires s != ""
    ensures 1 <= r.1 <= |s|
  {
    var c0, c1, c2 := s[0], if |s| > 1 then s[1] else '\0', if |s| > 2 then s[2] else '\0';
    if c0 == 'd' then (Signed(false), 1)
    else if c0 == 'l' && c1 == 'd' then (Signed(true), 2)
    else if c0 == 'l' && c1 == 'l' && c2 == 'd' then (Signed(true), 3)
    else if c0 == 'u' then (Unsigned(false), 1)
    else if c0 == 'l' && c1 == 'u' then (Unsigned(true), 2)
    else if c0 == 'l' && c1 == 'l' && c2 == 'u' then (Unsigned(true), 3)
    else if c0 == 'x' then (Hex(false), 1)
    else if c0 == 'l' && c1 == 'x' then (Hex(true), 2)
    else if c0 == 'l' && c1 == 'l' && c2 == 'x' then (Hex(true), 3)
    else if c0 == 'p' then (Pointer, 1)
    else if c0 == 's' then (Str, 1)
    else if c0 == 'c' then (Chr, 1)
    else if c0 == '%' then (Text('%'), 1)
    else (Unknown(c0), 1)
  }

  // ----- what they print

  /** The low bits of an argument word, as a signed or unsigned number. */
  function AsInt(w: nat, wide: bool): (x: int)
    ensures -(W64 / 2) <= x < W64 / 2
  {
    var m := if wide then W64 else UINT;
    if w % m < m / 2 then w % m else w % m - m
  }

  function AsNat(w: nat, wide: bool): (x: nat)
    ensures x < W64
  {
    if wide then w % W64 else w % UINT
  }

  /** What printint makes of a word that is passed as signed and printed as unsigned. */
  lemma SameWord(w: nat)
    ensures AsInt(w, true) % W64 == AsNat(w, true)
    ensures AsNat(w, false) < W64 / 2 && AsNat(w, false) % W64 == AsNat(w, false)
  {
  }

  function Decimal(x: int): string {
    if x < 0 then "-" + Numeral(-x, 10) else Numeral(x, 10)
  }

  /** Sixteen hexadecimal digits, the last n of them given by x. */
  function Padded(x: nat, n: nat): (s: string)
    ensures |s| == n
  {
    if n == 0 then "" else Padded(x / 16, n - 1) + [Digit(x % 16)]
  }

  /** The string at an address; null prints as a fixed text. */
  function StringAt(strings: nat -> string, w: nat): string {
    if w == 0 then "(null)" else strings(w)
  }

  predicate TakesArg(d: Directive) {
    !d.Text? && !d.Unknown?
  }

  function Render(d: Directive, w: nat, strings: nat -> string): string {
    match d
    case Text(c) => [c]
    case Signed(wide) => Decimal(AsInt(w, wide))
    case Unsigned(wide) => Numeral(AsNat(w, wide), 10)
    case Hex(wide) => Numeral(AsNat(w, wide), 16)
    case Pointer => "0x" + Padded(w % W64, 16)
    case Str => StringAt(strings, w)
    case Chr => [(w % 256) as char]
    case Unknown(c) => ['%', c]
  }

  function Needed(ds: seq<Directive>): nat {
    if ds == [] then 0 else Needed(ds[1..]) + if TakesArg(ds[0]) then 1 else 0
  }

  /** Everything a format prints. */
  function Output(ds: seq<Directive>, args: seq<nat>, strings: nat -> string): string
    requires Needed(ds) <= |args|
  {
    if ds == [] then ""
    else if TakesArg(ds[0]) then Render(ds[0], args[0], strings) + Output(ds[1..], args[1..], strings)
    else Render(ds[0], 0, strings) + Output(ds[1..], args, strings)
  }

  // ----- printf

  function Reversed(s: string): (r: string)
    ensures |r| == |s| && forall i :: 0 <= i < |s| ==> r[i] == s[|s| - 1 - i]
  {
    if s == "" then "" else Reversed(s[1..]) + [s[0]]
  }

  /** The digits of x come out last first. */
  method FillDigits(buf: array<char>, x0: nat, base: nat) returns (len: nat)
    requires base == 10 || base == 16
    requires |Numeral(x0, base)| <= buf.Length
    modifies buf
    ensures len == |Numeral(x0, base)| && Reversed(buf[..len]) == Numeral(x0, base)
  {
    hide Numeral, Reversed;
    ghost var all := Numeral(x0, base);
    var x: nat, i: nat := x0, 0;
    ReversedNone();
    assert buf[..0] == "" && all + "" == all;
    while true
      invariant i < |all| <= buf.Length && Numeral(x, base) + Reversed(buf[..i]) == all
      decreases x
    {
      ghost var done := buf[..i];
      NumeralStep(x, base);
      ReversedPush(done, Digit(x % base));
      buf[i] := Digit(x % base);
      assert buf[..i + 1] == done + [Digit(x % base)];
      i := i + 1;
      if x / base == 0 {
        break;
      }
      assert Numeral(x / base, base) + ([Digit(x % base)] + Reversed(done)) == all;
      x := x / base;
    }
    len := i;
  }

  lemma ReversedNone()
    ensures Reversed("") == ""
  {
  }

  lemma NumeralStep(x: nat, base: nat)
    requires 2 <= base <= 16
    ensures if x / base == 0 then Numeral(x, base) == [Digit(x % base)]
            else Numeral(x, base) == Numeral(x / base, base) + [Digit(x % base)] && x / base < x
  {
    DivZero(x, base);
  }

  lemma DivZero(x: nat, base: nat)
    requires base >= 2
    ensures if x / base == 0 then x < base && x % base == x else x >= base && x / base < x
  {
    var q := x / base;
    Divided(x, base);
    if q > 0 {
      Grows(q, 2, base);
    }
  }

  lemma ReversedPush(s: string, c: char)
    ensures Reversed(s + [c]) == [c] + Reversed(s)
  {
    var a, b := Reversed(s + [c]), [c] + Reversed(s);
    forall i | 0 <= i < |a| ensures a[i] == b[i] {
    }
  }

  /** printint: the digits, and a minus sign if the number is taken as signed. */
  method Printint(xx: int, base: nat, sign: bool) returns (out: string)
    requires -(W64 / 2) <= xx < W64 / 2 && (base == 10 || (base == 16 && !sign))
    ensures out == if sign && xx < 0 then "-" + Numeral(-xx, base) else Numeral(xx % W64, base)
  {
    hide Numeral, Reversed;
    var buf := new char[20];
    var neg := sign && xx < 0;
    var x: nat := if neg then -xx else xx % W64;
    NumeralFits(x);
    var i := FillDigits(buf, x, base);
    ghost var digits := buf[..i];
    if neg {
      buf[i] := '-';
      i := i + 1;
      ReversedPush(digits, '-');
      assert buf[..i] == digits + ['-'];
    }
    ghost var all := buf[..i];
    out := "";
    ReversedFrom(all, i);
    while i > 0
      invariant 0 <= i <= |all| && buf[..|all|] == all && out == Reversed(all[i..])
    {
      i := i - 1;
      out := out + [buf[i]];
      assert buf[i] == all[i];
      ReversedFrom(all, i);
    }
    assert all[0..] == all;
  }

  lemma ReversedFrom(s: string, i: nat)
    requires i <= |s|
    ensures i == |s| ==> Reversed(s[i..]) == ""
    ensures i < |s| ==> Reversed(s[i..]) == Reversed(s[i + 1..]) + [s[i]]
  {
    if i < |s| {
      assert s[i..][1..] == s[i + 1..];
    }
  }

  /** printptr: 0x and sixteen digits, by shifting four bits at a time. */
  method Printptr(w: nat) returns (out: string)
    requires w < W64
    ensures out == "0x" + Padded(w, 16)
  {
    hide Padded, Pow;
    out := "0x";
    var x: nat, i: nat := w, 0;
    PaddedNone(w);
    while i < 16
      invariant i <= 16 && x == w * Pow(16, i) % W64 && out == "0x" + Padded(Quot(w, Pow(16, 16 - i)), i)
    {
      TopDigit(w, i);
      ShiftWord(w, i);
      ShiftDigits(w, i);
      out := out + [Digit(x / 0x1000_0000_0000_0000)];
      x := x * 16 % W64;
      i := i + 1;
    }
    assert Pow(16, 0) == 1;
  }

  lemma PaddedNone(w: nat)
    ensures Pow(16, 16) > 0 && Padded(Quot(w, Pow(16, 16)), 0) == "" && Pow(16, 0) == 1
  {
  }

  lemma DivUnique(x: nat, m: nat, c: nat, r: nat)
    requires x == c * m + r && r < m
    ensures x / m == c
  {
    var q, t := x / m, x % m;
    assert x == q * m + t;
    if q < c {
      Grows(m, q + 1, c);
    } else if c < q {
      Grows(m, c + 1, q);
    }
  }

  function Quot(w: nat, q: nat): nat
    requires q > 0
  {
    w / q
  }

  lemma Expand(c: nat, d: nat, q: nat, b: nat)
    requires d < 16 && b < q
    ensures (c * 16 + d) * q + b == c * (16 * q) + (d * q + b)
    ensures d * q + b < 16 * q
  {
    Grows(q, d, 15);
  }

  lemma DivDiv(w: nat, p: nat, q: nat)
    requires q > 0 && p == 16 * q
    ensures Quot(w, p) == Quot(w, q) / 16
  {
    var a, b := w / q, w % q;
    var c, d := a / 16, a % 16;
    Divided2(w, q);
    Expand(c, d, q, b);
    DivUnique(w, p, c, d * q + b);
  }

  lemma Pow15()
    ensures Pow(16, 15) == 0x1000_0000_0000_0000
  {
    assert Pow(16, 1) == 16 && Pow(16, 2) == 256 && Pow(16, 3) == 4096 && Pow(16, 4) == 65536;
    PowAdd(16, 4, 4);
    PowAdd(16, 8, 4);
    PowAdd(16, 12, 3);
  }

  /** The four bits that printptr looks at in step i are hexadecimal digit i of w. */
  lemma TopDigit(w: nat, i: nat)
    requires w < W64 && i < 16
    ensures w * Pow(16, i) % W64 / 0x1000_0000_0000_0000 == Quot(w, Pow(16, 15 - i)) % 16
  {
    Pow15();
    PowAdd(16, i, 15 - i);
    assert Pow(16, 15 - i) > 0;
    TopDigitOf(w, Pow(16, i), Pow(16, 15 - i));
  }

  lemma TopDigitOf(w: nat, p: nat, q: nat)
    requires q > 0 && p * q == 0x1000_0000_0000_0000
    ensures w * p % W64 / 0x1000_0000_0000_0000 == w / q % 16
  {
    var a, b := w / q, w % q;
    Divided2(w, q);
    Times(a, q, b, p);
    Below(b, q, p);
    TopOf(w * p, a, b * p);
  }

  lemma Divided2(w: nat, q: nat)
    requires q > 0
    ensures w == w / q * q + w % q
  {
  }

  lemma Below(b: nat, q: nat, p: nat)
    requires b < q && p > 0
    ensures b * p < p * q
  {
    Grows(p, b + 1, q);
  }

  lemma Times(a: nat, q: nat, b: nat, p: nat)
    ensures (a * q + b) * p == a * (p * q) + b * p
  {
  }

  lemma TopOf(y: nat, a: nat, r: nat)
    requires y == a * 0x1000_0000_0000_0000 + r && r < 0x1000_0000_0000_0000
    ensures y % W64 / 0x1000_0000_0000_0000 == a % 16
  {
    var c, d := a / 16, a % 16;
    assert a == c * 16 + d;
    ModOf(y, c, d * 0x1000_0000_0000_0000 + r);
  }

  lemma ModOf(y: nat, c: nat, t: nat)
    requires y == c * W64 + t && t < W64
    ensures y % W64 == t
  {
  }

  /** Sixteen padded digits evaluate back to the number. */
  lemma {:induction false} PaddedValue(x: nat, n: nat)
    requires x < Pow(16, n)
    ensures Value(Padded(x, n), 16) == x
    decreases n
  {
    if n > 0 {
      DivBelow(x, 16, Pow(16, n - 1));
      PaddedValue(x / 16, n - 1);
      ValueSnoc(Padded(x / 16, n - 1), x % 16, 16);
      Divided(x, 16);
    }
  }

  lemma ShiftWord(w: nat, i: nat)
    ensures w * Pow(16, i) % W64 * 16 % W64 == w * Pow(16, i + 1) % W64
  {
    PowNext(i);
    Times16(w, Pow(16, i));
    ShiftMod(w * Pow(16, i));
  }

  lemma ShiftDigits(w: nat, i: nat)
    requires i < 16
    ensures Pow(16, 15 - i) > 0 && Pow(16, 16 - i) > 0
    ensures Padded(Quot(w, Pow(16, 15 - i)), i + 1)
      == Padded(Quot(w, Pow(16, 16 - i)), i) + [Digit(Quot(w, Pow(16, 15 - i)) % 16)]
  {
    hide Pow, Padded, Quot;
    PowNext(15 - i);
    var p, q := Pow(16, 16 - i), Pow(16, 15 - i);
    ShiftDigitsOf(w, p, q, i);
  }

  lemma ShiftDigitsOf(w: nat, p: nat, q: nat, i: nat)
    requires q > 0 && p == 16 * q
    ensures Padded(Quot(w, q), i + 1) == Padded(Quot(w, p), i) + [Digit(Quot(w, q) % 16)]
  {
    hide Quot;
    DivDiv(w, p, q);
    PaddedStep(Quot(w, q), i);
  }

  lemma PowNext(e: nat)
    ensures Pow(16, e + 1) == 16 * Pow(16, e) && Pow(16, e) > 0
  {
  }

  lemma Times16(w: nat, p: nat)
    ensures w * (16 * p) == w * p * 16
  {
  }

  lemma PaddedStep(x: nat, i: nat)
    ensures Padded(x, i + 1) == Padded(x / 16, i) + [Digit(x % 16)]
  {
  }

  lemma ShiftMod(y: nat)
    ensures y % W64 * 16 % W64 == y * 16 % W64
  {
  }

  // ----- going through a format

  function At(s: string, i: nat): char {
    if i < |s| then s[i] else '\0'
  }

  /** Every %c has a byte to print; the console takes other values for control codes. */
  predicate CharsOk(ds: seq<Directive>, args: seq<nat>)
    requires Needed(ds) <= |args|
  {
    if ds == [] then true
    else if TakesArg(ds[0]) then (ds[0] == Chr ==> args[0] < 256) && CharsOk(ds[1..], args[1..])
    else CharsOk(ds[1..], args)
  }

  /** What is still to be printed from position i on, with arguments from k on. */
  ghost predicate Left(fmt: string, i: nat, args: seq<nat>, k: nat, strings: nat -> string, out: string) {
    && i <= |fmt| && k <= |args| && Needed(Parse(fmt[i..])) <= |args| - k
    && out == Output(Parse(fmt[i..]), args[k..], strings)
  }

  lemma LeftText(fmt: string, i: nat, args: seq<nat>, k: nat, strings: nat -> string, out: string)
    requires Left(fmt, i, args, k, strings, out) && i < |fmt| && fmt[i] != '%'
    ensures out != "" && out[0] == fmt[i] && Left(fmt, i + 1, args, k, strings, out[1..])
  {
    var s := fmt[i..];
    assert s[1..] == fmt[i + 1..];
    var rest := Parse(fmt[i + 1..]);
    assert ([Text(fmt[i])] + rest)[1..] == rest;
  }

  lemma LeftDirective(fmt: string, i: nat, args: seq<nat>, k: nat, strings: nat -> string, out: string, d: Directive,
                      n: nat)
    requires Left(fmt, i, args, k, strings, out) && i + 1 < |fmt| && fmt[i] == '%' && Conversion(fmt[i + 1..]) == (d, n)
    ensures i + 1 + n <= |fmt| && (TakesArg(d) ==> k < |args|)
    ensures var text := Render(d, if TakesArg(d) then args[k] else 0, strings);
      |text| <= |out| && out[..|text|] == text
      && Left(fmt, i + 1 + n, args, if TakesArg(d) then k + 1 else k, strings, out[|text|..])
  {
    var s := fmt[i..];
    assert s[1..] == fmt[i + 1..];
    assert s[1 + n..] == fmt[i + 1 + n..];
    var rest := Parse(fmt[i + 1 + n..]);
    assert ([d] + rest)[1..] == rest;
    var text := Render(d, if TakesArg(d) then args[k] else 0, strings);
    if TakesArg(d) {
      assert args[k..][1..] == args[k + 1..];
    }
    assert out == text + Output(rest, if TakesArg(d) then args[k..][1..] else args[k..], strings);
  }

  lemma LeftChars(fmt: string, i: nat, args: seq<nat>, k: nat, d: Directive, n: nat)
    requires i + 1 < |fmt| && fmt[i] == '%' && Conversion(fmt[i + 1..]) == (d, n) && k <= |args|
    requires Needed(Parse(fmt[i..])) <= |args[k..]| && CharsOk(Parse(fmt[i..]), args[k..])
    ensures i + 1 + n <= |fmt|
    ensures TakesArg(d) ==> k < |args| && (d == Chr ==> args[k] < 256)
    ensures var k' := if TakesArg(d) then k + 1 else k;
      Needed(Parse(fmt[i + 1 + n..])) <= |args[k'..]| && CharsOk(Parse(fmt[i + 1 + n..]), args[k'..])
  {
    var s := fmt[i..];
    assert s[1..] == fmt[i + 1..];
    assert s[1 + n..] == fmt[i + 1 + n..];
    var rest := Parse(fmt[i + 1 + n..]);
    assert ([d] + rest)[1..] == rest;
    if TakesArg(d) {
      assert args[k..][1..] == args[k + 1..];
    }
  }

  lemma LeftEnd(fmt: string, i: nat, args: seq<nat>, k: nat, strings: nat -> string, out: string)
    requires Left(fmt, i, args, k, strings, out) && (i == |fmt| || (i + 1 == |fmt| && fmt[i] == '%'))
    ensures out == ""
  {
  }

  /** The characters after a '%' as the if-chains of both functions see them. */
  lemma Lookahead(fmt: string, i: nat)
    requires i < |fmt|
    ensures fmt[i..] != "" && fmt[i..][0] == fmt[i]
    ensures i + 1 < |fmt| ==> |fmt[i..]| > 1 && fmt[i..][1] == fmt[i + 1]
    ensures i + 2 < |fmt| ==> |fmt[i..]| > 2 && fmt[i..][2] == fmt[i + 2]
  {
  }

  lemma PositiveInt(x: int)
    requires x < W64 / 2
    ensures x >= 0 ==> x % W64 == x
  {
  }

  /** printf's conversions, one at a time: what is printed for the directive at fmt[i..]. */
  method PrintOne(fmt: string, i: nat, args: seq<nat>, k: nat, strings: nat -> string)
    returns (out: string, taken: nat, n: nat)
    requires NoNul(fmt) && i < |fmt|
    requires TakesArg(Conversion(fmt[i..]).0) ==> k < |args| && args[k] < W64
    requires Conversion(fmt[i..]).0 == Chr ==> args[k] < 256
    ensures n == Conversion(fmt[i..]).1 && taken == (if TakesArg(Conversion(fmt[i..]).0) then 1 else 0)
    ensures out == Render(Conversion(fmt[i..]).0, if taken == 1 then args[k] else 0, strings)
  {
    hide Numeral, Padded, AsInt, AsNat;
    Lookahead(fmt, i);
    if k < |args| {
      SameWord(args[k]);
      PositiveInt(AsInt(args[k], false));
      PositiveInt(AsInt(args[k], true));
    }
    n, taken := 1, 1;
    var c0, c1, c2 := At(fmt, i), '\0', '\0';
    if c0 != '\0' {
      c1 := At(fmt, i + 1);
    }
    if c1 != '\0' {
      c2 := At(fmt, i + 2);
    }
    if c0 == 'd' {
      out := Printint(AsInt(args[k], false), 10, true);
    } else if c0 == 'l' && c1 == 'd' {
      out := Printint(AsInt(args[k], true), 10, true);
      n := n + 1;
    } else if c0 == 'l' && c1 == 'l' && c2 == 'd' {
      out := Printint(AsInt(args[k], true), 10, true);
      n := n + 2;
    } else if c0 == 'u' {
      out := Printint(AsNat(args[k], false), 10, false);
    } else if c0 == 'l' && c1 == 'u' {
      out := Printint(AsInt(args[k], true), 10, false);
      n := n + 1;
    } else if c0 == 'l' && c1 == 'l' && c2 == 'u' {
      out := Printint(AsInt(args[k], true), 10, false);
      n := n + 2;
    } else if c0 == 'x' {
      out := Printint(AsNat(args[k], false), 16, false);
    } else if c0 == 'l' && c1 == 'x' {
      out := Printint(AsInt(args[k], true), 16, false);
      n := n + 1;
    } else if c0 == 'l' && c1 == 'l' && c2 == 'x' {
      out := Printint(AsInt(args[k], true), 16, false);
      n := n + 2;
    } else if c0 == 'p' {
      out := Printptr(args[k]);
    } else if c0 == 'c' {
      out := [args[k] as char];
    } else if c0 == 's' {
      out := if args[k] == 0 then "(null)" else strings(args[k]);
    } else if c0 == '%' {
      out, taken := "%", 0;
    } else {
      out, taken := ['%', c0], 0;
    }
  }

  /** printf: everything the format asks for, in order. */
  method Printf(fmt: string, args: seq<nat>, strings: nat -> string) returns (out: string)
    requires NoNul(fmt) && forall k :: 0 <= k < |args| ==> args[k] < W64
    requires Needed(Parse(fmt)) <= |args| && CharsOk(Parse(fmt), args)
    ensures out == Output(Parse(fmt), args, strings)
  {
    hide Parse, Output, Needed, CharsOk, Render, Conversion;
    ghost var all := Output(Parse(fmt), args, strings);
    out := "";
    var i: nat, k: nat := 0, 0;
    assert fmt[0..] == fmt && args[0..] == args && all[0..] == all;
    while i < |fmt|
      invariant |out| <= |all| && out == all[..|out|] && Left(fmt, i, args, k, strings, all[|out|..])
      invariant Needed(Parse(fmt[i..])) <= |args[k..]| && CharsOk(Parse(fmt[i..]), args[k..])
      decreases |fmt| - i
    {
      ghost var left := all[|out|..];
      if fmt[i] != '%' {
        LeftText(fmt, i, args, k, strings, left);
        TextChars(fmt, i, args, k);
        out := out + [fmt[i]];
        assert all[|out|..] == left[1..];
        i := i + 1;
      } else if i + 1 == |fmt| {
        break;
      } else {
        var text, taken, n := PrintOneAt(fmt, i, args, k, strings, left);
        out := out + text;
        assert all[|out|..] == left[|text|..];
        k := k + taken;
        i := i + 1 + n;
      }
    }
    LeftEnd(fmt, i, args, k, strings, all[|out|..]);
  }

  lemma TextChars(fmt: string, i: nat, args: seq<nat>, k: nat)
    requires i < |fmt| && fmt[i] != '%' && k <= |args|
    requires Needed(Parse(fmt[i..])) <= |args[k..]| && CharsOk(Parse(fmt[i..]), args[k..])
    ensures Needed(Parse(fmt[i + 1..])) <= |args[k..]| && CharsOk(Parse(fmt[i + 1..]), args[k..])
  {
    var s := fmt[i..];
    assert s[1..] == fmt[i + 1..];
    var rest := Parse(fmt[i + 1..]);
    assert ([Text(fmt[i])] + rest)[1..] == rest;
  }

  method PrintOneAt(fmt: string, i: nat, args: seq<nat>, k: nat, strings: nat -> string, ghost left: string)
    returns (text: string, taken: nat, n: nat)
    requires NoNul(fmt) && i + 1 < |fmt| && fmt[i] == '%' && forall j :: 0 <= j < |args| ==> args[j] < W64
    requires Left(fmt, i, args, k, strings, left)
    requires Needed(Parse(fmt[i..])) <= |args[k..]| && CharsOk(Parse(fmt[i..]), args[k..])
    ensures |text| <= |left| && left[..|text|] == text && i + 1 + n <= |fmt| && n > 0
    ensures Left(fmt, i + 1 + n, args, k + taken, strings, left[|text|..])
    ensures Needed(Parse(fmt[i + 1 + n..])) <= |args[k + taken..]|
      && CharsOk(Parse(fmt[i + 1 + n..]), args[k + taken..])
  {
    hide Render, Conversion, Parse, Output, Needed, CharsOk;
    ghost var d, m := Conversion(fmt[i + 1..]).0, Conversion(fmt[i + 1..]).1;
    LeftDirective(fmt, i, args, k, strings, left, d, m);
    LeftChars(fmt, i, args, k, d, m);
    text, taken, n := PrintOne(fmt, i + 1, args, k, strings);
  }

  // ----- vsnprintf

  /** The buffer has as much of `all` as fits before position `end`. */
  ghost predicate Stored(buf: array<char>, dst: nat, end: nat, all: string)
    reads buf
  {
    dst == Min(|all|, end) && end < buf.Length && buf[..dst] == all[..dst]
  }

  /** PUTC. */
  method Putc(buf: array<char>, dst: nat, end: nat, ch: char, ghost all: string) returns (d: nat)
    requires Stored(buf, dst, end, all)
    modifies buf
    ensures Stored(buf, d, end, all + [ch])
  {
    d := dst;
    if dst < end {
      buf[dst] := ch;
      d := dst + 1;
      assert buf[..d] == old(buf[..dst]) + [ch];
      assert all[..dst] == all;
    } else {
      assert (all + [ch])[..dst] == all[..dst];
    }
  }

  /** while (*s) PUTC(*s++). */
  method Puts(buf: array<char>, dst: nat, end: nat, s: string, ghost all: string) returns (d: nat)
    requires Stored(buf, dst, end, all)
    modifies buf
    ensures Stored(buf, d, end, all + s)
  {
    hide Stored;
    d := dst;
    var j := 0;
    assert all + s[..0] == all;
    while j < |s|
      invariant 0 <= j <= |s| && Stored(buf, d, end, all + s[..j])
    {
      d := Putc(buf, d, end, s[j], all + s[..j]);
      assert all + s[..j] + [s[j]] == all + s[..j + 1];
      j := j + 1;
    }
    assert s[..j] == s;
  }

  /** The digits of x go into tmp[24] and from there, last first, into the buffer. */
  method PutNumeral(buf: array<char>, dst: nat, end: nat, x: nat, base: nat, ghost all: string) returns (d: nat)
    requires Stored(buf, dst, end, all) && x < W64 && (base == 10 || base == 16)
    modifies buf
    ensures Stored(buf, d, end, all + Numeral(x, base))
  {
    hide Stored, Numeral, Reversed;
    var tmp := new char[24];
    NumeralFits(x);
    var tmplen := FillDigits(tmp, x, base);
    ghost var digits := tmp[..tmplen];
    d := dst;
    ReversedFrom(digits, tmplen);
    assert all + "" == all;
    while tmplen > 0
      invariant 0 <= tmplen <= |digits| <= 24 && tmp[..|digits|] == digits
      invariant Stored(buf, d, end, all + Reversed(digits[tmplen..]))
    {
      tmplen := tmplen - 1;
      ReversedFrom(digits, tmplen);
      ghost var before := all + Reversed(digits[tmplen + 1..]);
      assert tmp[tmplen] == digits[tmplen];
      d := Putc(buf, d, end, tmp[tmplen], before);
      assert before + [digits[tmplen]] == all + Reversed(digits[tmplen..]);
    }
    assert digits[0..] == digits;
  }

  /** x as a signed number: the sign, then the digits of its absolute value. */
  method PutSigned(buf: array<char>, dst: nat, end: nat, x: int, ghost all: string) returns (d: nat)
    requires Stored(buf, dst, end, all) && -(W64 / 2) <= x < W64 / 2
    modifies buf
    ensures Stored(buf, d, end, all + Decimal(x))
  {
    hide Stored, Numeral;
    d := dst;
    if x < 0 {
      d := Putc(buf, d, end, '-', all);
      d := PutNumeral(buf, d, end, -x, 10, all + "-");
      assert all + "-" + Numeral(-x, 10) == all + Decimal(x);
    } else {
      d := PutNumeral(buf, d, end, x, 10, all);
    }
  }

  /** 0x and sixteen digits. */
  method PutPointer(buf: array<char>, dst: nat, end: nat, w: nat, ghost all: string) returns (d: nat)
    requires Stored(buf, dst, end, all) && w < W64
    modifies buf
    ensures Stored(buf, d, end, all + ("0x" + Padded(w, 16)))
  {
    hide Stored, Padded, Pow;
    d := Putc(buf, dst, end, '0', all);
    d := Putc(buf, d, end, 'x', all + ['0']);
    var x: nat, i: nat := w, 0;
    PaddedNone(w);
    ghost var text := "0x";
    assert all + ['0'] + ['x'] == all + text;
    while i < 16
      invariant i <= 16 && x == w * Pow(16, i) % W64 && text == "0x" + Padded(Quot(w, Pow(16, 16 - i)), i)
      invariant Stored(buf, d, end, all + text)
    {
      TopDigit(w, i);
      ShiftWord(w, i);
      ShiftDigits(w, i);
      ghost var next := text + [Digit(x / 0x1000_0000_0000_0000)];
      d := Putc(buf, d, end, Digit(x / 0x1000_0000_0000_0000), all + text);
      assert all + text + [Digit(x / 0x1000_0000_0000_0000)] == all + next;
      text := next;
      x := x * 16 % W64;
      i := i + 1;
    }
    assert Pow(16, 0) == 1;
  }

  /** vsnprintf's conversions, one at a time. */
  method PutOne(buf: array<char>, dst: nat, end: nat, fmt: string, i: nat, args: seq<nat>, k: nat,
                strings: nat -> string, ghost all: string)
    returns (d: nat, taken: nat, n: nat)
    requires Stored(buf, dst, end, all) && NoNul(fmt) && i < |fmt|
    requires TakesArg(Conversion(fmt[i..]).0) ==> k < |args| && args[k] < W64
    modifies buf
    ensures n == Conversion(fmt[i..]).1 && taken == (if TakesArg(Conversion(fmt[i..]).0) then 1 else 0)
    ensures Stored(buf, d, end, all + Render(Conversion(fmt[i..]).0, if taken == 1 then args[k] else 0, strings))
  {
    hide Numeral, Padded, AsInt, AsNat, Stored, Decimal;
    Lookahead(fmt, i);
    n, taken := 1, 1;
    var c0, c1, c2 := At(fmt, i), '\0', '\0';
    if c0 != '\0' {
      c1 := At(fmt, i + 1);
    }
    if c1 != '\0' {
      c2 := At(fmt, i + 2);
    }
    if c0 == 'd' {
      d := PutSigned(buf, dst, end, AsInt(args[k], false), all);
    } else if c0 == 'l' && c1 == 'd' {
      d := PutSigned(buf, dst, end, AsInt(args[k], true), all);
      n := n + 1;
    } else if c0 == 'l' && c1 == 'l' && c2 == 'd' {
      d := PutSigned(buf, dst, end, AsInt(args[k], true), all);
      n := n + 2;
    } else if c0 == 'u' {
      d := PutNumeral(buf, dst, end, AsNat(args[k], false), 10, all);
    } else if c0 == 'l' && c1 == 'u' {
      d := PutNumeral(buf, dst, end, AsNat(args[k], true), 10, all);
      n := n + 1;
    } else if c0 == 'l' && c1 == 'l' && c2 == 'u' {
      d := PutNumeral(buf, dst, end, AsNat(args[k], true), 10, all);
      n := n + 2;
    } else if c0 == 'x' {
      d := PutNumeral(buf, dst, end, AsNat(args[k], false), 16, all);
    } else if c0 == 'l' && c1 == 'x' {
      d := PutNumeral(buf, dst, end, AsNat(args[k], true), 16, all);
      n := n + 1;
    } else if c0 == 'l' && c1 == 'l' && c2 == 'x' {
      d := PutNumeral(buf, dst, end, AsNat(args[k], true), 16, all);
      n := n + 2;
    } else if c0 == 'p' {
      d := PutPointer(buf, dst, end, args[k], all);
    } else if c0 == 's' {
      var s := if args[k] == 0 then "(null)" else strings(args[k]);
      d := Puts(buf, dst, end, s, all);
    } else if c0 == 'c' {
      d := Putc(buf, dst, end, (args[k] % 256) as char, all);
    } else if c0 == '%' {
      d := Putc(buf, dst, end, '%', all);
      taken := 0;
    } else {
      d := Putc(buf, dst, end, '%', all);
      d := Putc(buf, d, end, c0, all + ['%']);
      assert all + ['%'] + [c0] == all + ['%', c0];
      taken := 0;
    }
  }

  /** vsnprintf: the first n-1 characters of what printf would print, and a NUL; r says how many. */
  method Vsnprintf(buf: array<char>, n: nat, fmt: string, args: seq<nat>, strings: nat -> string) returns (r: nat)
    requires 1 <= n <= buf.Length
    requires NoNul(fmt) && forall k :: 0 <= k < |args| ==> args[k] < W64
    requires Needed(Parse(fmt)) <= |args|
    modifies buf
    ensures r == Min(|Output(Parse(fmt), args, strings)|, n - 1)
    ensures buf[..r] == Output(Parse(fmt), args, strings)[..r] && buf[r] == '\0'
  {
    hide Parse, Output, Needed, Render, Conversion;
    ghost var all := Output(Parse(fmt), args, strings);
    ghost var done := "";
    var dst: nat, end: nat := 0, n - 1;
    var i: nat, k: nat := 0, 0;
    assert fmt[0..] == fmt && args[0..] == args && all[0..] == all;
    while i < |fmt|
      invariant |done| <= |all| && done == all[..|done|] && Left(fmt, i, args, k, strings, all[|done|..])
      invariant Stored(buf, dst, end, done)
      decreases |fmt| - i
    {
      ghost var left := all[|done|..];
      if fmt[i] != '%' {
        LeftText(fmt, i, args, k, strings, left);
        dst := Putc(buf, dst, end, fmt[i], done);
        done := done + [fmt[i]];
        assert all[|done|..] == left[1..];
        i := i + 1;
      } else if i + 1 == |fmt| {
        break;
      } else {
        LeftDirective(fmt, i, args, k, strings, left, Conversion(fmt[i + 1..]).0, Conversion(fmt[i + 1..]).1);
        ghost var text := Render(Conversion(fmt[i + 1..]).0,
          if TakesArg(Conversion(fmt[i + 1..]).0) then args[k] else 0, strings);
        var taken, m;
        dst, taken, m := PutOne(buf, dst, end, fmt, i + 1, args, k, strings, done);
        done := done + text;
        assert all[|done|..] == left[|text|..];
        k := k + taken;
        i := i + 1 + m;
      }
    }
    LeftEnd(fmt, i, args, k, strings, all[|done|..]);
    assert done == all;
    buf[dst] := '\0';
    r := dst;
  }

  /** So the two functions agree: what vsnprintf stores is a beginning of what printf prints. */
  method SamePrefix(buf: array<char>, n: nat, fmt: string, args: seq<nat>, strings: nat -> string)
    returns (printed: string, r: nat)
    requires 1 <= n <= buf.Length
    requires NoNul(fmt) && forall k :: 0 <= k < |args| ==> args[k] < W64
    requires Needed(Parse(fmt)) <= |args| && CharsOk(Parse(fmt), args)
    modifies buf
    ensures r < buf.Length && buf[..r] == printed[..Min(|printed|, n - 1)] && buf[r] == '\0'
  {
    printed := Printf(fmt, args, strings);
    r := Vsnprintf(buf, n, fmt, args, strings);
  }
}
