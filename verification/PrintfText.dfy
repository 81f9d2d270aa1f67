/** What bsg_printf.c's `number` prints, as somebody who reads the text sees it. */
module PrintfText {
  import opened Arithmetic
  import opened Bits
  import opened Printf

  // ---- reading ----

  /** How many blanks s starts with. */
  function Blanks(s: string): (n: nat)
    ensures n <= |s|
  {
    if s == "" || s[0] != ' ' then 0 else 1 + Blanks(s[1..])
  }

  /** How many characters come before the next blank. */
  function Run(s: string): (n: nat)
    ensures n <= |s|
  {
    if s == "" || s[0] == ' ' then 0 else 1 + Run(s[1..])
  }

  function ReadUnsigned(s: string, base: nat): nat {
    var t := if base == 16 && |s| >= 2 && s[..2] == "0x" then s[2..] else s;
    Value(t[..Run(t)], base)
  }

  /** A number in a text: blanks, perhaps a sign, perhaps 0x if the base is 16, and digits. */
  function Read(s: string, base: nat): int {
    var t := s[Blanks(s)..];
    if t != "" && t[0] == '-' then 0 - ReadUnsigned(t[1..], base)
    else if t != "" && t[0] == '+' then ReadUnsigned(t[1..], base)
    else ReadUnsigned(t, base)
  }

  // ---- the digits ----

  /** A digit of the base, in the letters asked for. */
  predicate Plain(c: char, base: nat, upper: bool) {
    (IsDigit(c) || (if upper then 'A' <= c <= 'Z' else 'a' <= c <= 'z')) && DigitValue(c) < base
  }

  lemma DigitIsPlain(d: nat, base: nat, upper: bool)
    requires d < base <= 36
    ensures Plain(DigitChar(d, upper), base, upper)
  {
    DigitIs(d, upper);
    if d < 10 {
      assert DigitChar(d, upper) == '0' + d as char;
    } else if upper {
      assert DigitChar(d, upper) == 'A' + (d - 10) as char;
    } else {
      assert DigitChar(d, upper) == 'a' + (d - 10) as char;
    }
  }

  ghost predicate AllPlain(s: string, base: nat, upper: bool) {
    forall i :: 0 <= i < |s| ==> Plain(s[i], base, upper)
  }

  lemma {:induction false} SpellIsPlain(u: nat, base: nat, upper: bool)
    requires 2 <= base <= 36
    ensures AllPlain(Spell(u, base, upper), base, upper)
    ensures u > 0 ==> Spell(u, base, upper) != "" && Spell(u, base, upper)[0] != '0'
  {
    if u > 0 {
      DivMod(u, base);
      QuotientSmaller(u, base);
      SpellIsPlain(u / base, base, upper);
      DigitIsPlain(u % base, base, upper);
      DigitIs(u % base, upper);
    }
  }

  /** The digits are digits of the base, with no zero in front unless the number is zero. */
  lemma DigitsArePlain(u: nat, base: nat, f: Flags)
    requires 2 <= base <= 36
    ensures AllPlain(DigitsOf(u, base, f), base, f.uppercase)
    ensures DigitsOf(u, base, f) != "" && (DigitsOf(u, base, f)[0] == '0' ==> u == 0 && DigitsOf(u, base, f) == "0")
  {
    SpellIsPlain(u, base, f.uppercase);
  }

  // ---- reading back ----

  lemma {:induction false} SkipsBlanks(n: int, s: string)
    requires s != "" ==> s[0] != ' '
    ensures Blanks(Repeat(' ', n) + s) == |Repeat(' ', n)|
    decreases if n > 0 then n else 0
  {
    var b := Repeat(' ', n);
    if n > 0 {
      SkipsBlanks(n - 1, s);
      assert (b + s)[1..] == Repeat(' ', n - 1) + s;
    } else {
      assert b + s == s;
    }
  }

  lemma {:induction false} RunIs(s: string, n: int)
    requires forall i :: 0 <= i < |s| ==> s[i] != ' '
    ensures Run(s + Repeat(' ', n)) == |s|
  {
    if s != "" {
      RunIs(s[1..], n);
      assert (s + Repeat(' ', n))[1..] == s[1..] + Repeat(' ', n);
    } else {
      assert s + Repeat(' ', n) == Repeat(' ', n);
    }
  }

  /** A text without blanks, up to the next blank. */
  lemma ReadsRun(s: string, base: nat, n: int)
    requires forall i :: 0 <= i < |s| ==> s[i] != ' ' && (base == 16 ==> s[i] != 'x')
    ensures ReadUnsigned(s + Repeat(' ', n), base) == Value(s, base)
  {
    var t := s + Repeat(' ', n);
    RunIs(s, n);
    assert t[..|s|] == s;
    if base == 16 && |t| >= 2 {
      assert t[1] != 'x';
      assert t[..2][1] == t[1];
    }
  }

  lemma ZerosArePlain(m: int, digits: string, base: nat, upper: bool)
    requires AllPlain(digits, base, upper)
    ensures var s := Repeat('0', m) + digits;
      forall i :: 0 <= i < |s| ==> s[i] != ' ' && (base == 16 ==> s[i] != 'x')
  {
    var s := Repeat('0', m) + digits;
    forall i | 0 <= i < |s| ensures s[i] != ' ' && (base == 16 ==> s[i] != 'x') {
      assert s[i] == '0' || Plain(s[i], base, upper);
    }
  }

  lemma ReadsDigits(m: int, digits: string, base: nat, upper: bool, n: int)
    requires AllPlain(digits, base, upper)
    ensures ReadUnsigned(Repeat('0', m) + digits + Repeat(' ', n), base) == Value(digits, base)
  {
    ZerosArePlain(m, digits, base, upper);
    ReadsRun(Repeat('0', m) + digits, base, n);
    LeadingZeros(m, digits, base);
  }

  /** 0x before a text is skipped. */
  lemma ReadsHex(s: string, n: int)
    requires forall i :: 0 <= i < |s| ==> s[i] != ' '
    ensures ReadUnsigned("0x" + (s + Repeat(' ', n)), 16) == Value(s, 16)
  {
    var rest := s + Repeat(' ', n);
    var t := "0x" + rest;
    assert t[..2] == "0x" && t[2..] == rest;
    RunIs(s, n);
    assert rest[..|s|] == s;
  }

  lemma ReadsPrefixed(m: int, digits: string, base: nat, f: Flags, n: int)
    requires AllPlain(digits, base, f.uppercase)
    ensures ReadUnsigned(PrefixOf(base, f) + (Repeat('0', m) + digits + Repeat(' ', n)), base) == Value(digits, base)
  {
    var s := Repeat('0', m) + digits;
    if f.hexPrep && base == 8 {
      var m' := if m < 0 then 1 else m + 1;
      assert "0" + (s + Repeat(' ', n)) == Repeat('0', m') + digits + Repeat(' ', n);
      ReadsDigits(m', digits, base, f.uppercase, n);
    } else if f.hexPrep && base == 16 {
      ZerosArePlain(m, digits, base, f.uppercase);
      ReadsHex(s, n);
      LeadingZeros(m, digits, base);
    } else {
      ReadsDigits(m, digits, base, f.uppercase, n);
      assert "" + (s + Repeat(' ', n)) == s + Repeat(' ', n);
    }
  }

  /** A text that starts with neither a blank nor a sign. */
  predicate Starts(t: string) {
    t != "" && t[0] != ' ' && t[0] != '-' && t[0] != '+'
  }

  lemma TextStarts(m: int, digits: string, base: nat, f: Flags, n: int)
    requires digits != "" && AllPlain(digits, base, f.uppercase)
    ensures Starts(PrefixOf(base, f) + (Repeat('0', m) + digits + Repeat(' ', n)))
  {
    assert Plain(digits[0], base, f.uppercase);
  }

  lemma ReadsAfterBlanks(b: int, t: string, base: nat)
    requires t != "" && t[0] != ' '
    ensures Read(Repeat(' ', b) + t, base) == Read(t, base)
  {
    SkipsBlanks(b, t);
    assert (Repeat(' ', b) + t)[|Repeat(' ', b)|..] == t;
    assert t[0..] == t;
  }

  lemma ReadsSign(sign: char, t: string, base: nat)
    requires Starts(t) && sign in {'-', '+'}
    ensures Read([sign] + t, base) == if sign == '-' then 0 - ReadUnsigned(t, base) else ReadUnsigned(t, base)
  {
    var s := [sign] + t;
    assert Blanks(s) == 0 && s[0..] == s && s[1..] == t;
  }

  lemma ReadsNoSign(t: string, base: nat)
    requires Starts(t)
    ensures Read(t, base) == ReadUnsigned(t, base)
  {
    assert Blanks(t) == 0 && t[0..] == t;
  }

  /** Blanks, sign, and a text. */
  lemma ReadsText(b: int, num: int, t: string, base: nat, f: Flags)
    requires Starts(t)
    ensures Read(Repeat(' ', b) + (SignOf(num, f) + t), base)
         == if f.sign && num < 0 then 0 - ReadUnsigned(t, base) else ReadUnsigned(t, base)
  {
    var sign := SignOf(num, f);
    if sign == " " {
      var b' := if b < 0 then 1 else b + 1;
      assert Repeat(' ', b) + (" " + t) == Repeat(' ', b') + t;
      ReadsAfterBlanks(b', t, base);
      ReadsNoSign(t, base);
    } else if sign == "" {
      assert "" + t == t;
      ReadsAfterBlanks(b, t, base);
      ReadsNoSign(t, base);
    } else {
      ReadsAfterBlanks(b, sign + t, base);
      ReadsSign(sign[0], t, base);
    }
  }

  /** The number fits in a long of `bits` bits, and the base is one that is not refused. */
  predicate Fits(num: int, bits: nat, base: int) {
    bits >= 1 && 0 <= num + Pow2(bits - 1) && num < Pow2(bits - 1) && 2 <= base <= 36
  }

  lemma TwoZeros(a: int, b: int)
    ensures Repeat('0', a) + Repeat('0', b) == Repeat('0', |Repeat('0', a)| + |Repeat('0', b)|)
  {
  }

  lemma Regroup(a: string, b: string, c: string, d: string)
    ensures a + b + c + d == a + (b + (c + d))
  {
  }

  /** Every layout is blanks, sign, prefix, zeros, digits and blanks. */
  lemma LayoutText(sign: string, prefix: string, zeros: int, digits: string, pad: int, f: Flags)
      returns (b: int, m: int, n: int)
    ensures Layout(sign, prefix, Repeat('0', zeros) + digits, pad, f)
         == Repeat(' ', b) + (sign + (prefix + (Repeat('0', m) + digits + Repeat(' ', n))))
  {
    var body := Repeat('0', zeros) + digits;
    b, m, n := 0, zeros, 0;
    if f.left {
      n := pad;
      Regroup(sign, prefix, body, Repeat(' ', n));
    } else if f.zeropad {
      TwoZeros(pad, zeros);
      m := |Repeat('0', pad)| + |Repeat('0', zeros)|;
      Regroup(sign, prefix, Repeat('0', pad), body);
      assert Repeat('0', pad) + body == Repeat('0', m) + digits + Repeat(' ', n);
    } else {
      b := pad;
      Regroup(Repeat(' ', b), sign, prefix, body);
      assert body == body + Repeat(' ', n);
    }
    assert b == 0 ==> forall t: string :: Repeat(' ', b) + t == t;
  }

  lemma LayoutReads(text: string, num: int, base: nat, zeros: int, digits: string, pad: int, f: Flags)
    requires text == Layout(SignOf(num, f), PrefixOf(base, f), Repeat('0', zeros) + digits, pad, f)
    requires digits != "" && AllPlain(digits, base, f.uppercase)
    ensures Read(text, base) == if f.sign && num < 0 then 0 - Value(digits, base) else Value(digits, base)
  {
    var b, m, n := LayoutText(SignOf(num, f), PrefixOf(base, f), zeros, digits, pad, f);
    TextStarts(m, digits, base, f, n);
    ReadsPrefixed(m, digits, base, f, n);
    ReadsText(b, num, PrefixOf(base, f) + (Repeat('0', m) + digits + Repeat(' ', n)), base, f);
  }

  lemma FormatIsLayout(num: int, bits: nat, base: int, size: int, precision: int, f: Flags, digits: string)
    returns (pad: int)
    requires Fits(num, bits, base) && digits == DigitsOf(Magnitude(num, bits, f), base, f)
    ensures Format(num, bits, base, size, precision, f)
         == Layout(SignOf(num, f), PrefixOf(base, f), Repeat('0', precision - |digits|) + digits, pad, f)
  {
    var body := Repeat('0', precision - |digits|) + digits;
    pad := size - |SignOf(num, f)| - |PrefixOf(base, f)| - |body|;
  }

  lemma ReadsMagnitude(text: string, num: int, bits: nat, base: int, precision: int, f: Flags, digits: string, pad: int)
    requires Fits(num, bits, base) && digits == DigitsOf(Magnitude(num, bits, f), base, f)
    requires text == Layout(SignOf(num, f), PrefixOf(base, f), Repeat('0', precision - |digits|) + digits, pad, f)
    ensures Read(text, base) == if num >= 0 || f.sign then num else num + Pow2(bits)
  {
    DigitsArePlain(Magnitude(num, bits, f), base, f);
    LayoutReads(text, num, base, precision - |digits|, digits, pad, f);
    SpelledValue(Magnitude(num, bits, f), base, f);
  }

  /** Whatever the width, the precision and the flags, what is printed is read back: as the number
      itself if the conversion is signed, and otherwise as the number modulo 2 to the bits. */
  lemma ReadsBack(num: int, bits: nat, base: int, size: int, precision: int, f: Flags)
    requires Fits(num, bits, base)
    ensures Read(Format(num, bits, base, size, precision, f), base)
         == if num >= 0 || f.sign then num else num + Pow2(bits)
  {
    var digits := DigitsOf(Magnitude(num, bits, f), base, f);
    var pad := FormatIsLayout(num, bits, base, size, precision, f, digits);
    ReadsMagnitude(Format(num, bits, base, size, precision, f), num, bits, base, precision, f, digits, pad);
  }

  // ---- where things stand ----

  /** How many characters sign and prefix take. */
  function HeadLength(num: int, base: int, f: Flags): nat {
    (if f.sign && (num < 0 || f.plus || f.space) then 1 else 0)
    + (if f.hexPrep && base == 16 then 2 else if f.hexPrep && base == 8 then 1 else 0)
  }

  lemma Cut(sign: string, prefix: string, body: string)
    ensures var core, h := sign + prefix + body, |sign| + |prefix|;
      |core| >= h && core[..h] == sign + prefix && core[h..] == body && core[|sign|..h] == prefix
  {
  }

  lemma LayoutPads(core: string, h: nat, sign: string, prefix: string, body: string, pad: int, f: Flags)
    requires core == sign + prefix + body && h == |sign| + |prefix|
    ensures Layout(sign, prefix, body, pad, f)
         == if f.left then core + Repeat(' ', pad)
            else if f.zeropad then core[..h] + Repeat('0', pad) + core[h..]
            else Repeat(' ', pad) + core
  {
    Cut(sign, prefix, body);
    assert Repeat(' ', pad) + sign + prefix + body == Repeat(' ', pad) + (sign + prefix + body);
  }

  /** The digits with the zeros of the precision. */
  function Body(num: int, bits: nat, base: int, precision: int, f: Flags): string
    requires Fits(num, bits, base)
  {
    var digits := DigitsOf(Magnitude(num, bits, f), base, f);
    Repeat('0', precision - |digits|) + digits
  }

  lemma NoPad(sign: string, prefix: string, body: string, pad: int, f: Flags)
    requires pad <= 0
    ensures Layout(sign, prefix, body, pad, f) == sign + prefix + body
  {
    assert Repeat(' ', pad) == Repeat('0', pad) == "";
    if f.left {
      assert sign + prefix + body + "" == sign + prefix + body;
    } else if f.zeropad {
      assert sign + prefix + "" == sign + prefix;
    } else {
      assert "" + sign == sign;
    }
  }

  lemma CoreIs(num: int, bits: nat, base: int, precision: int, f: Flags)
    requires Fits(num, bits, base)
    ensures Format(num, bits, base, 0, precision, f)
         == SignOf(num, f) + PrefixOf(base, f) + Body(num, bits, base, precision, f)
  {
    var sign, prefix, body := SignOf(num, f), PrefixOf(base, f), Body(num, bits, base, precision, f);
    NoPad(sign, prefix, body, 0 - |sign| - |prefix| - |body|, f);
  }

  lemma HeadIs(num: int, base: int, f: Flags)
    ensures HeadLength(num, base, f) == |SignOf(num, f)| + |PrefixOf(base, f)|
  {
  }

  lemma BodyIsPlain(num: int, bits: nat, base: int, precision: int, f: Flags)
    requires Fits(num, bits, base)
    ensures var body := Body(num, bits, base, precision, f);
      && AllPlain(body, base, f.uppercase) && |body| >= Max(precision, 1)
      && (|body| > Max(precision, 1) ==> body[0] != '0')
  {
    var digits := DigitsOf(Magnitude(num, bits, f), base, f);
    DigitsArePlain(Magnitude(num, bits, f), base, f);
    var body := Repeat('0', precision - |digits|) + digits;
    forall i | 0 <= i < |body| ensures Plain(body[i], base, f.uppercase) {
    }
  }

  /** The width only pads what is printed without it: with blanks behind if left-justified, with zeros
      after sign and prefix if zero-padded, and otherwise with blanks in front. */
  lemma WidthPads(num: int, bits: nat, base: int, size: int, precision: int, f: Flags)
    requires Fits(num, bits, base)
    ensures
      var core, h := Format(num, bits, base, 0, precision, f), HeadLength(num, base, f);
      && h < |core|
      && Format(num, bits, base, size, precision, f)
         == if f.left then core + Repeat(' ', size - |core|)
            else if f.zeropad then core[..h] + Repeat('0', size - |core|) + core[h..]
            else Repeat(' ', size - |core|) + core
  {
    var sign, prefix, body := SignOf(num, f), PrefixOf(base, f), Body(num, bits, base, precision, f);
    CoreIs(num, bits, base, precision, f);
    HeadIs(num, base, f);
    BodyIsPlain(num, bits, base, precision, f);
    LayoutPads(Format(num, bits, base, 0, precision, f), HeadLength(num, base, f), sign, prefix, body,
               size - |sign| - |prefix| - |body|, f);
  }

  /** Without a width: a sign exactly where the flags ask for one, and then the prefix .. */
  lemma HeadStands(num: int, bits: nat, base: int, precision: int, f: Flags)
    requires Fits(num, bits, base)
    ensures
      var core, h := Format(num, bits, base, 0, precision, f), HeadLength(num, base, f);
      && |core| > h
      && (core[0] == '-' <==> f.sign && num < 0)
      && (core[0] == '+' <==> f.sign && num >= 0 && f.plus)
      && (core[0] == ' ' <==> f.sign && num >= 0 && !f.plus && f.space)
      && (f.hexPrep && base == 16 ==> core[h - 2..h] == "0x")
      && (f.hexPrep && base == 8 ==> core[h - 1..h] == "0")
  {
    var sign, prefix, body := SignOf(num, f), PrefixOf(base, f), Body(num, bits, base, precision, f);
    CoreIs(num, bits, base, precision, f);
    HeadIs(num, base, f);
    BodyIsPlain(num, bits, base, precision, f);
    Cut(sign, prefix, body);
    FirstIs(sign, prefix, body);
    assert Plain(body[0], base, f.uppercase);
  }

  lemma FirstIs(sign: string, prefix: string, body: string)
    requires body != ""
    ensures (sign + prefix + body)[0] == if sign != "" then sign[0] else if prefix != "" then prefix[0] else body[0]
  {
  }

  /** .. and digits of the base: at least one, at least as many as the precision, and no more zeros in
      front than that takes. */
  lemma BodyStands(num: int, bits: nat, base: int, precision: int, f: Flags)
    requires Fits(num, bits, base)
    ensures
      var core, h := Format(num, bits, base, 0, precision, f), HeadLength(num, base, f);
      && |core| >= h + Max(precision, 1)
      && AllPlain(core[h..], base, f.uppercase)
      && (|core| > h + Max(precision, 1) ==> core[h] != '0')
  {
    CoreIs(num, bits, base, precision, f);
    HeadIs(num, base, f);
    BodyIsPlain(num, bits, base, precision, f);
    Cut(SignOf(num, f), PrefixOf(base, f), Body(num, bits, base, precision, f));
  }
}
