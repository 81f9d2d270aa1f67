/** Integer output and input of bsg_printf.c: `number` and `skip_atoi`. */
module Printf {
  import opened Common
  import opened Arithmetic
  import opened Bits

  /** The flags of a conversion. */
  datatype Flags = Flags(zeropad: bool, sign: bool, plus: bool, space: bool, left: bool, hexPrep: bool, uppercase: bool)

  const DIGITS: string := "0123456789abcdefghijklmnopqrstuvwxyz"
  const UPPER_DIGITS: string := "0123456789ABCDEFGHIJKLMNOPQRSTUVWXYZ"
  const TMP_SIZE: nat := 66

  function DigitChar(d: nat, upper: bool): char
    requires d < 36
  {
    if upper then UPPER_DIGITS[d] else DIGITS[d]
  }

  /** What the digit stands for. */
  function DigitValue(c: char): nat {
    if '0' <= c <= '9' then (c - '0') as nat
    else if 'a' <= c <= 'z' then (c - 'a') as nat + 10
    else if 'A' <= c <= 'Z' then (c - 'A') as nat + 10
    else 0
  }

  lemma DigitIs(d: nat, upper: bool)
    requires d < 36
    ensures DigitValue(DigitChar(d, upper)) == d
  {
    if d < 10 {
      assert DigitChar(d, upper) == '0' + d as char;
    } else if upper {
      assert DigitChar(d, upper) == 'A' + (d - 10) as char;
    } else {
      assert DigitChar(d, upper) == 'a' + (d - 10) as char;
    }
  }

  /** The number the characters spell, first digit first. */
  function Value(s: string, base: nat): nat {
    if s == [] then 0 else Value(s[..|s| - 1], base) * base + DigitValue(s[|s| - 1])
  }

  /** The digits of u, first digit first; none for zero. */
  function Spell(u: nat, base: nat, upper: bool): string
    requires 2 <= base <= 36
  {
    if u == 0 then [] else
      DivMod(u, base);
      QuotientSmaller(u, base);
      Spell(u / base, base, upper) + [DigitChar(u % base, upper)]
  }

  lemma QuotientSmaller(u: nat, base: nat)
    requires u > 0 && base >= 2
    ensures u / base < u && 2 * (u / base) <= u
  {
    DivMod(u, base);
    MulBound(u / base, base);
    MulBound(base - 2, u / base);
    assert (u / base) * base == 2 * (u / base) + (base - 2) * (u / base);
  }

  lemma {:induction false} SpellValue(u: nat, base: nat, upper: bool)
    requires 2 <= base <= 36
    ensures Value(Spell(u, base, upper), base) == u
  {
    if u > 0 {
      DivMod(u, base);
      QuotientSmaller(u, base);
      SpellValue(u / base, base, upper);
      DigitIs(u % base, upper);
      var s := Spell(u, base, upper);
      assert s[..|s| - 1] == Spell(u / base, base, upper);
    }
  }

  /** A number below 2^k has at most k digits. */
  lemma {:induction false} SpellLength(u: nat, base: nat, upper: bool, k: nat)
    requires 2 <= base <= 36 && u < Pow2(k)
    ensures |Spell(u, base, upper)| <= k
  {
    if u > 0 {
      DivMod(u, base);
      QuotientSmaller(u, base);
      SpellLength(u / base, base, upper, k - 1);
    }
  }

  // ---- what a conversion prints ----

  /** The value as the digits show it: a long of `bits` bits, cast to unsigned after its sign has
      been taken off. Negating the least long leaves it as it is. */
  function Magnitude(num: int, bits: nat, f: Flags): (u: nat)
    requires bits >= 1 && 0 <= num + Pow2(bits - 1) && num < Pow2(bits - 1)
    ensures u < Pow2(bits)
    ensures num >= 0 ==> u == num
    ensures num < 0 && f.sign ==> u == -num
  {
    var negated := if f.sign && num < 0 && num + Pow2(bits - 1) != 0 then -num else num;
    if negated < 0 then negated + Pow2(bits) else negated
  }

  function SignOf(num: int, f: Flags): string {
    if !f.sign then ""
    else if num < 0 then "-" else if f.plus then "+" else if f.space then " " else ""
  }

  function PrefixOf(base: int, f: Flags): string {
    if !f.hexPrep then "" else if base == 8 then "0" else if base == 16 then "0x" else ""
  }

  function DigitsOf(u: nat, base: nat, f: Flags): string
    requires 2 <= base <= 36
  {
    if u == 0 then "0" else Spell(u, base, f.uppercase)
  }

  function Repeat(c: char, n: int): (s: string)
    ensures |s| == if n < 0 then 0 else n
    ensures forall i :: 0 <= i < |s| ==> s[i] == c
  {
    if n <= 0 then "" else seq(n, _ => c)
  }

  function Max(a: int, b: int): int {
    if a < b then b else a
  }

  /** The fields of a conversion, laid out: body is the digits with the zeros of the precision,
      size the room left for padding. */
  function Layout(sign: string, prefix: string, body: string, pad: int, f: Flags): string {
    if f.left then sign + prefix + body + Repeat(' ', pad)
    else if f.zeropad then sign + prefix + Repeat('0', pad) + body
    else Repeat(' ', pad) + sign + prefix + body
  }

  /** Padding, sign, prefix, zeros up to the precision, digits: padded with blanks before or after,
      or with zeros between prefix and digits. */
  function Format(num: int, bits: nat, base: int, size: int, precision: int, f: Flags): string
    requires bits >= 1 && 0 <= num + Pow2(bits - 1) && num < Pow2(bits - 1) && 2 <= base <= 36
  {
    var sign, prefix, digits := SignOf(num, f), PrefixOf(base, f), DigitsOf(Magnitude(num, bits, f), base, f);
    var body := Repeat('0', precision - |digits|) + digits;
    var pad := size - |sign| - |prefix| - |body|;
    Layout(sign, prefix, body, pad, f)
  }

  /** Appends c while there is room left, and leaves the room one below where the loop stopped. */
  method Pad(str: string, size: int, c: char) returns (r: string, size': int)
    ensures r == str + Repeat(c, size)
    ensures size' == if size > 0 then -1 else size - 1
  {
    r, size' := str, size;
    while size' > 0
      invariant size' <= size && (size > 0 ==> size' >= 0) && (size <= 0 ==> size' == size)
      invariant r == str + Repeat(c, size - size')
    {
      r := r + [c];
      assert Repeat(c, size - size' + 1) == Repeat(c, size - size') + [c];
      size' := size' - 1;
    }
    size' := size' - 1;
  }

  /** The last digit of what is still to be written. */
  lemma Peel(all: string, n: nat, u: nat, base: nat, upper: bool)
    requires 2 <= base <= 36 && u > 0 && n <= |all| && all[..n] == Spell(u, base, upper)
    ensures 0 <= u % base < base && 0 <= u / base < u
    ensures n >= 1 && all[n - 1] == DigitChar(u % base, upper) && all[..n - 1] == Spell(u / base, base, upper)
  {
    DivMod(u, base);
    QuotientSmaller(u, base);
    var shorter := Spell(u / base, base, upper);
    assert all[..n] == shorter + [DigitChar(u % base, upper)];
    assert all[..n - 1] == all[..n][..n - 1] == shorter;
  }

  /** One digit: remainder and quotient. */
  method NextDigit(u: nat, base: nat, upper: bool, ghost all: string, ghost n: nat) returns (c: char, q: nat)
    requires 2 <= base <= 36 && u > 0 && n <= |all| && all[..n] == Spell(u, base, upper)
    ensures n >= 1 && c == all[n - 1] && all[..n - 1] == Spell(q, base, upper) && q < u
  {
    Peel(all, n, u, base, upper);
    c := DigitChar(u % base, upper);
    q := u / base;
  }

  /** The digits into tmp, last digit first. */
  method FillTmp(tmp: array<char>, num: nat, base: nat, upper: bool, ghost bits: nat) returns (i: nat)
    requires tmp.Length == TMP_SIZE && 2 <= base <= 36 && num < Pow2(bits) && bits <= 64
    modifies tmp
    ensures i == |Spell(num, base, upper)| <= bits
    ensures forall j :: 0 <= j < i ==> tmp[j] == Spell(num, base, upper)[i - 1 - j]
  {
    i := 0;
    var u := num;
    SpellLength(num, base, upper, bits);
    ghost var all := Spell(num, base, upper);
    while u != 0
      invariant i <= |all| && all[..|all| - i] == Spell(u, base, upper)
      invariant forall j :: 0 <= j < i ==> tmp[j] == all[|all| - 1 - j]
      decreases u
    {
      var c;
      c, u := NextDigit(u, base, upper, all, |all| - i);
      tmp[i] := c;
      i := i + 1;
    }
  }

  /** Appends the digits, which tmp holds last digit first. */
  method PutTmp(str: string, tmp: array<char>, i: nat, ghost digits: string) returns (r: string)
    requires i == |digits| <= tmp.Length
    requires forall j :: 0 <= j < i ==> tmp[j] == digits[i - 1 - j]
    ensures r == str + digits
  {
    r := str;
    var k := i;
    while k > 0
      invariant 0 <= k <= i && r == str + digits[..i - k]
    {
      k := k - 1;
      r := r + [tmp[k]];
      assert digits[..i - k] == digits[..i - k - 1] + [digits[i - k - 1]];
    }
    assert digits[..i] == digits;
  }

  /** Appends the zeros that the precision asks for beyond the i digits. */
  method PutZeros(str: string, i: nat, precision: int) returns (r: string)
    ensures r == str + Repeat('0', precision - i)
  {
    r := str;
    var p := precision;
    while i < p
      invariant p <= precision && (precision >= i ==> p >= i) && (precision < i ==> p == precision)
      invariant r == str + Repeat('0', precision - p)
    {
      r := r + ['0'];
      assert Repeat('0', precision - p + 1) == Repeat('0', precision - p) + ['0'];
      p := p - 1;
    }
  }

  method EmitPrefix(str: string, base: int, f: Flags) returns (r: string)
    ensures r == str + PrefixOf(base, f)
  {
    r := str;
    if f.hexPrep {
      if base == 8 {
        r := r + ['0'];
      } else if base == 16 {
        r := r + ['0', DIGITS[33]];
      }
    }
  }

  /** What comes before the digits, and the padding still to be written. */
  method EmitHead(str: string, sign: string, base: int, size: int, f: Flags) returns (r: string, size': int)
    ensures f.left ==> size' == size && r == str + (sign + PrefixOf(base, f))
    ensures !f.left ==> size' < 0
    ensures !f.left && f.zeropad ==> r == str + (sign + PrefixOf(base, f) + Repeat('0', size))
    ensures !f.left && !f.zeropad ==> r == str + (Repeat(' ', size) + sign + PrefixOf(base, f))
  {
    size' := size;
    r := str;
    if !(f.zeropad && !f.left) && !f.left {
      r, size' := Pad(r, size', ' ');
    }
    ghost var head := if f.left || f.zeropad then "" else Repeat(' ', size);
    r := r + sign;
    r := EmitPrefix(r, base, f);
    assert r == str + (head + sign + PrefixOf(base, f));
    if !f.left {
      ghost var before := r;
      var c := if f.zeropad then '0' else ' ';
      ghost var n := size';
      r, size' := Pad(r, size', c);
      assert r == before + Repeat(c, n);
    }
  }

  /** The output statements of number. */
  method Emit(str: string, sign: string, base: int, size: int, precision: int, f: Flags,
              tmp: array<char>, i: nat, ghost digits: string) returns (r: string)
    requires i == |digits| <= tmp.Length
    requires forall j :: 0 <= j < i ==> tmp[j] == digits[i - 1 - j]
    ensures r == str + Layout(sign, PrefixOf(base, f), Repeat('0', precision - i) + digits, size, f)
  {
    ghost var body := Repeat('0', precision - i) + digits;
    var size';
    r, size' := EmitHead(str, sign, base, size, f);
    ghost var head := r;
    r := PutZeros(r, i, precision);
    r := PutTmp(r, tmp, i, digits);
    assert r == head + body;
    r, size' := Pad(r, size', ' ');
  }

  /** The digits of u into tmp, last digit first; zero has one digit. */
  method PutDigits(tmp: array<char>, u: nat, base: nat, f: Flags, ghost bits: nat) returns (i: nat)
    requires tmp.Length == TMP_SIZE && 2 <= base <= 36 && u < Pow2(bits) && 1 <= bits <= 64
    modifies tmp
    ensures i == |DigitsOf(u, base, f)| <= bits
    ensures forall j :: 0 <= j < i ==> tmp[j] == DigitsOf(u, base, f)[i - 1 - j]
  {
    if u == 0 {
      tmp[0] := '0';
      i := 1;
    } else {
      i := FillTmp(tmp, u, base, f.uppercase, bits);
    }
  }

  /** The sign to print, and what sign and prefix leave of the width. */
  method SignAndRoom(num: int, base: int, size: int, f: Flags) returns (sign: string, size': int)
    ensures sign == SignOf(num, f) && size' == size - |sign| - |PrefixOf(base, f)|
  {
    size' := size;
    sign := "";
    if f.sign {
      if num < 0 {
        sign := "-";
        size' := size' - 1;
      } else if f.plus {
        sign := "+";
        size' := size' - 1;
      } else if f.space {
        sign := " ";
        size' := size' - 1;
      }
    }
    if f.hexPrep {
      if base == 16 {
        size' := size' - 2;
      } else if base == 8 {
        size' := size' - 1;
      }
    }
  }

  /** number: None where the base is refused and the source returns a null pointer. */
  method Number(str: string, num: int, base: int, size: int, precision: int, f: Flags, bits: nat)
      returns (r: Option<string>)
    requires 1 <= bits <= 64 && 0 <= num + Pow2(bits - 1) && num < Pow2(bits - 1)
    ensures r.None? <==> base < 2 || base > 36
    ensures r.Some? ==> r.value == str + Format(num, bits, base, size, precision, f)
  {
    if base < 2 || base > 36 {
      return None;
    }
    var sign, size' := SignAndRoom(num, base, size, f);
    var tmp := new char[TMP_SIZE](_ => ' ');
    var u := Magnitude(num, bits, f);
    var i := PutDigits(tmp, u, base, f, bits);
    var precision' := precision;
    if i > precision' {
      precision' := i;
    }
    size' := size' - precision';
    FormatIs(num, bits, base, size, precision, f, i, precision');
    var out := Emit(str, sign, base, size', precision', f, tmp, i, DigitsOf(u, base, f));
    return Some(out);
  }

  /** The size that is left when everything but the padding is taken off. */
  lemma FormatIs(num: int, bits: nat, base: int, size: int, precision: int, f: Flags, i: nat, precision': int)
    requires bits >= 1 && 0 <= num + Pow2(bits - 1) && num < Pow2(bits - 1) && 2 <= base <= 36
    requires i == |DigitsOf(Magnitude(num, bits, f), base, f)| && precision' == Max(precision, i)
    ensures Format(num, bits, base, size, precision, f)
         == Layout(SignOf(num, f), PrefixOf(base, f),
                   Repeat('0', precision' - i) + DigitsOf(Magnitude(num, bits, f), base, f),
                   size - |SignOf(num, f)| - |PrefixOf(base, f)| - precision', f)
  {
    assert Repeat('0', precision' - i) == Repeat('0', precision - i);
  }

  // ---- what number promises ----

  /** Exactly as many characters as the larger of the width and of sign, prefix and digits, the
      digits being at least as many as the precision asks for. */
  lemma FormatLength(num: int, bits: nat, base: int, size: int, precision: int, f: Flags)
    requires bits >= 1 && 0 <= num + Pow2(bits - 1) && num < Pow2(bits - 1) && 2 <= base <= 36
    ensures |Format(num, bits, base, size, precision, f)|
         == Max(size, |SignOf(num, f)| + |PrefixOf(base, f)|
                      + Max(precision, |DigitsOf(Magnitude(num, bits, f), base, f)|))
  {
  }

  lemma SpelledValue(u: nat, base: nat, f: Flags)
    requires 2 <= base <= 36
    ensures Value(DigitsOf(u, base, f), base) == u
  {
    SpellValue(u, base, f.uppercase);
    if u == 0 {
      assert "0"[..0] == "";
      assert Value("", base) == 0;
    }
  }

  /** The digits, with the zeros before them, spell the magnitude. */
  lemma DigitsReadBack(num: int, bits: nat, base: nat, precision: int, f: Flags)
    requires bits >= 1 && 0 <= num + Pow2(bits - 1) && num < Pow2(bits - 1) && 2 <= base <= 36
    ensures
      var digits := DigitsOf(Magnitude(num, bits, f), base, f);
      Value(Repeat('0', precision - |digits|) + digits, base) == Magnitude(num, bits, f)
  {
    var digits := DigitsOf(Magnitude(num, bits, f), base, f);
    SpelledValue(Magnitude(num, bits, f), base, f);
    LeadingZeros(precision - |digits|, digits, base);
  }

  lemma {:induction false} LeadingZeros(n: int, s: string, base: nat)
    ensures Value(Repeat('0', n) + s, base) == Value(s, base)
    decreases |s| + if n > 0 then n else 0
  {
    var z := Repeat('0', n);
    if s != [] {
      LeadingZeros(n, s[..|s| - 1], base);
      assert (z + s)[..|z + s| - 1] == z + s[..|s| - 1];
    } else if n > 0 {
      LeadingZeros(n - 1, s, base);
      assert z[..n - 1] == Repeat('0', n - 1);
      assert z + s == z && Repeat('0', n - 1) + s == Repeat('0', n - 1);
      assert Value(z[..n - 1], base) == 0;
    } else {
      assert z + s == s;
    }
  }

  // ---- skip_atoi ----

  predicate IsDigit(c: char) {
    '0' <= c <= '9'
  }

  /** How many digits s starts with. */
  function Leading(s: string): (n: nat)
    ensures n <= |s| && (forall i :: 0 <= i < n ==> IsDigit(s[i])) && (n < |s| ==> !IsDigit(s[n]))
  {
    if s == [] || !IsDigit(s[0]) then 0 else 1 + Leading(s[1..])
  }

  /** The largest number skip_atoi computes: it adds the character code of the last digit before it
      takes off that of '0', in a 32-bit int. */
  const ATOI_MAX: int := 0x7FFF_FFFF - 48

  lemma {:induction false} ValueGrows(s: string, k: nat, n: nat)
    requires k <= n <= |s|
    ensures Value(s[..k], 10) <= Value(s[..n], 10)
  {
    if k < n {
      ValueGrows(s, k, n - 1);
      assert s[..n][..n - 1] == s[..n - 1];
    }
  }

  /** skip_atoi on a terminated string: the number it starts with, and what is left of it; nothing
      if the int overflows, which C leaves undefined. */
  method SkipAtoi(s: string) returns (i: nat, rest: string, overflow: bool)
    requires s != [] && !IsDigit(s[|s| - 1])
    ensures overflow <==> Value(s[..Leading(s)], 10) > ATOI_MAX
    ensures !overflow ==> i == Value(s[..Leading(s)], 10) && rest == s[Leading(s)..]
  {
    i := 0;
    overflow := false;
    rest := s;
    var k := 0;
    while IsDigit(s[k])
      invariant k <= Leading(s) && k < |s|
      invariant i == Value(s[..k], 10) <= ATOI_MAX
      decreases |s| - k
    {
      assert s[..k + 1][..k] == s[..k];
      var sum := i * 10 + s[k] as nat;
      if sum > 0x7FFF_FFFF {
        ValueGrows(s, k + 1, Leading(s));
        overflow := true;
        return;
      }
      i := sum - '0' as nat;
      k := k + 1;
    }
    rest := s[k..];
  }

  lemma {:induction false} SpellsDigits(u: nat, upper: bool)
    ensures forall i :: 0 <= i < |Spell(u, 10, upper)| ==> IsDigit(Spell(u, 10, upper)[i])
  {
    if u > 0 {
      DivMod(u, 10);
      SpellsDigits(u / 10, upper);
      DecimalDigit(u % 10, upper);
    }
  }

  lemma DecimalDigit(d: nat, upper: bool)
    requires d < 10
    ensures IsDigit(DigitChar(d, upper))
  {
  }

  /** What number prints in base 10, read by skip_atoi, gives the magnitude back. */
  lemma AtoiReadsNumber(num: int, bits: nat, f: Flags, rest: string)
    requires bits >= 1 && 0 <= num + Pow2(bits - 1) && num < Pow2(bits - 1)
    requires rest != [] && !IsDigit(rest[0])
    ensures
      var s := DigitsOf(Magnitude(num, bits, f), 10, f) + rest;
      Value(s[..Leading(s)], 10) == Magnitude(num, bits, f) && s[Leading(s)..] == rest
  {
    var u := Magnitude(num, bits, f);
    var digits := DigitsOf(u, 10, f);
    var s := digits + rest;
    SpellsDigits(u, f.uppercase);
    assert s[|digits|] == rest[0];
    assert Leading(s) == |digits|;
    assert s[..Leading(s)] == digits;
    assert Repeat('0', 0 - |digits|) + digits == digits;
    DigitsReadBack(num, bits, 10, 0, f);
  }
}
