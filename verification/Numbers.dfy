/**
 strtol of libc/stdlib.c against the two digit printers: printnk of
 kernel/kernel/debug.cpp and the insertion operators of stl/ostream.cpp.
 Strings are ASCII; a read past the end yields the terminating NUL.
 */
module Numbers {
  import opened Arithmetic
  import opened Common

  const ULONG_MAX: nat := 0xFFFF_FFFF
  const LONG_MAX: int := 0x7FFF_FFFF     // and LONG_MIN is -LONG_MAX

  ghost predicate Ascii(s: string) {
    forall i | 0 <= i < |s| :: s[i] as int < 128
  }

  function CharAt(s: string, i: nat): char { if i < |s| then s[i] else '\0' }

  predicate IsSpace(c: char) { 9 <= c as int <= 13 || c == ' ' }

  predicate IsDigit(c: char) { '0' <= c <= '9' }

  predicate IsUpper(c: char) { 'A' <= c <= 'Z' }

  predicate IsAlpha(c: char) { IsUpper(c) || 'a' <= c <= 'z' }

  /** The value of a character as a digit; 36 if it is none. */
  function DigitValue(c: char): nat {
    if IsDigit(c) then c as int - '0' as int
    else if IsUpper(c) then c as int - 'A' as int + 10
    else if IsAlpha(c) then c as int - 'a' as int + 10
    else 36
  }

  // ---------------------------------------------------------------------
  // What the string denotes
  // ---------------------------------------------------------------------

  function SkipSpaces(s: string, i: nat): (j: nat)
    requires i <= |s|
    ensures i <= j <= |s| && !IsSpace(CharAt(s, j))
    ensures forall k | i <= k < j :: IsSpace(s[k])
    decreases |s| - i
  {
    if i < |s| && IsSpace(s[i]) then SkipSpaces(s, i + 1) else i
  }

  /** End of the longest run of digits of the base. */
  function RunEnd(s: string, i: nat, base: nat): (j: nat)
    requires i <= |s| && base <= 36
    ensures i <= j <= |s| && DigitValue(CharAt(s, j)) >= base
    ensures forall k | i <= k < j :: DigitValue(s[k]) < base
    decreases |s| - i
  {
    if i < |s| && DigitValue(s[i]) < base then RunEnd(s, i + 1, base) else i
  }

  /** The number written in s[i..j]. */
  function Value(s: string, i: nat, j: nat, base: nat): nat
    requires i <= j <= |s|
    decreases j
  {
    if i == j then 0 else MulNonNegative(Value(s, i, j - 1, base), base); Value(s, i, j - 1, base) * base + DigitValue(s[j - 1])
  }

  /** Sign, base and first digit of the subject of a conversion. */
  datatype Subject = Subject(neg: bool, base: nat, start: nat)

  /** What strtol makes of it: value, end pointer (as an index) and ERANGE. */
  datatype Conversion = Conversion(value: int, end: nat, erange: bool)

  predicate ValidBase(base: nat) { base == 0 || 2 <= base <= 36 }

  /** Where white space and sign end. */
  function AfterSign(s: string): (r: (bool, nat))
    ensures r.1 <= |s|
  {
    var i := SkipSpaces(s, 0);
    if CharAt(s, i) == '-' then (true, i + 1)
    else if CharAt(s, i) == '+' then (false, i + 1)
    else (false, i)
  }

  predicate HasHexPrefix(s: string, i: nat, base: nat) {
    (base == 0 || base == 16) && CharAt(s, i) == '0' && (CharAt(s, i + 1) == 'x' || CharAt(s, i + 1) == 'X')
  }

  function GuessBase(s: string, i: nat, base: nat): nat {
    if base != 0 then base else if CharAt(s, i) == '0' then 8 else 10
  }

  /** The code takes a hexadecimal prefix whatever follows it. */
  function CodeSubject(s: string, base: nat): (r: Subject)
    requires ValidBase(base)
    ensures r.start <= |s| && 2 <= r.base <= 36
  {
    var (neg, i) := AfterSign(s);
    if HasHexPrefix(s, i, base) then Subject(neg, 16, i + 2)
    else Subject(neg, GuessBase(s, i, base), i)
  }

  /** C99 section 7.20.1.4: a prefix without a hexadecimal digit is no prefix. */
  function StandardSubject(s: string, base: nat): (r: Subject)
    requires ValidBase(base)
    ensures r.start <= |s| && 2 <= r.base <= 36
  {
    var (neg, i) := AfterSign(s);
    if HasHexPrefix(s, i, base) && DigitValue(CharAt(s, i + 2)) < 16 then Subject(neg, 16, i + 2)
    else Subject(neg, GuessBase(s, i, base), i)
  }

  /** The longest run of digits, saturated to the limits of long. */
  function Convert(s: string, u: Subject): Conversion
    requires u.start <= |s| && 2 <= u.base <= 36
  {
    var stop := RunEnd(s, u.start, u.base);
    var v := Value(s, u.start, stop, u.base);
    var m: int := if v > LONG_MAX then LONG_MAX else v;
    Conversion(if u.neg then -m else m, if stop == u.start then 0 else stop, v > LONG_MAX)
  }

  // ---------------------------------------------------------------------
  // strtol
  // ---------------------------------------------------------------------

  /** The cutoff test says whether one more digit would pass the limit. */
  lemma CutoffTest(acc: nat, c: nat, base: nat)
    requires base > 0 && c < base
    ensures var cutoff, cutlim := LONG_MAX / base, LONG_MAX % base;
            acc > cutoff || (acc == cutoff && c > cutlim) <==> acc * base + c > LONG_MAX
  {
    var cutoff, cutlim := LONG_MAX / base, LONG_MAX % base;
    assert LONG_MAX == cutoff * base + cutlim;
    MulAtLeast(acc - cutoff, base);
    assert (acc - cutoff) * base == acc * base - cutoff * base;
  }

  lemma ValueSnoc(s: string, i: nat, k: nat, base: nat)
    requires i < k <= |s|
    ensures Value(s, i, k, base) == Value(s, i, k - 1, base) * base + DigitValue(s[k - 1])
  {
  }

  lemma {:induction false} ValueGrows(s: string, i: nat, j: nat, k: nat, base: nat)
    requires i <= j <= k <= |s| && base >= 1
    ensures Value(s, i, j, base) <= Value(s, i, k, base)
    decreases k - j
  {
    if j < k {
      ValueSnoc(s, i, k, base);
      ValueGrows(s, i, j, k - 1, base);
      var v := Value(s, i, k - 1, base);
      hide Value;
      MulNonNegative(v, base - 1);
      assert v * (base - 1) == v * base - v;
    }
  }

  method StrToL(str: string, base: nat) returns (r: Conversion)
    requires Ascii(str) && ValidBase(base)
    ensures r == Read(str, base)
  {
    hide Value, RunEnd, DigitValue, CodeSubject;
    var u := ParseSubject(str, base);
    var acc, any, stop := Accumulate(str, u.start, u.base);
    if any < 0 {
      r := Conversion(if u.neg then -LONG_MAX else LONG_MAX, stop, true);
    } else {
      r := Conversion(if u.neg then -(acc as int) else acc, if any != 0 then stop else 0, false);
    }
  }

  /** White space, sign, prefix and base. */
  method ParseSubject(str: string, base: nat) returns (u: Subject)
    requires ValidBase(base)
    ensures u == CodeSubject(str, base)
  {
    hide IsSpace;
    var i := 0;
    while IsSpace(CharAt(str, i))
      invariant i <= |str| && SkipSpaces(str, i) == SkipSpaces(str, 0)
      decreases |str| - i
    {
      NulIsNoSpace();
      i := i + 1;
    }
    var neg := false;
    if CharAt(str, i) == '-' {
      neg := true;
      i := i + 1;
    } else if CharAt(str, i) == '+' {
      i := i + 1;
    }
    var b := base;
    if (b == 0 || b == 16) && CharAt(str, i) == '0' && (CharAt(str, i + 1) == 'x' || CharAt(str, i + 1) == 'X') {
      i := i + 2;
      b := 16;
    }
    if b == 0 {
      b := if CharAt(str, i) == '0' then 8 else 10;
    }
    u := Subject(neg, b, i);
  }

  lemma NulIsNoSpace()
    ensures !IsSpace('\0')
  {
  }

  /** The digit loop: any is 0 without digits, -1 after overflow, else 1.  The
      accumulator never exceeds LONG_MAX. */
  method Accumulate(str: string, start: nat, base: nat) returns (acc: nat, any: int, stop: nat)
    requires start <= |str| && 2 <= base <= 36
    ensures stop == RunEnd(str, start, base) && acc <= LONG_MAX
    ensures any == if stop == start then 0 else if Value(str, start, stop, base) > LONG_MAX then -1 else 1
    ensures any >= 0 ==> acc == Value(str, start, stop, base)
  {
    var cutoff: nat := LONG_MAX / base;
    var cutlim: nat := LONG_MAX % base;
    acc, any, stop := 0, 0, start;
    assert Value(str, start, start, base) == 0;
    hide Value;
    while true
      invariant start <= stop <= |str| && RunEnd(str, stop, base) == RunEnd(str, start, base)
      invariant acc <= LONG_MAX
      invariant any == if stop == start then 0 else if Value(str, start, stop, base) > LONG_MAX then -1 else 1
      invariant any >= 0 ==> acc == Value(str, start, stop, base)
      decreases |str| - stop
    {
      var c: int := CharAt(str, stop) as int;
      if IsDigit(CharAt(str, stop)) {
        c := c - '0' as int;
      } else if IsAlpha(CharAt(str, stop)) {
        c := c - (if IsUpper(CharAt(str, stop)) then 'A' as int - 10 else 'a' as int - 10);
      } else {
        break;
      }
      if c >= base {
        break;
      }
      if any >= 0 { CutoffTest(acc, c, base); }
      ValueSnoc(str, start, stop + 1, base);
      ValueGrows(str, start, stop, stop + 1, base);
      if any < 0 || acc > cutoff || (acc == cutoff && c > cutlim) {
        any := -1;
      } else {
        any := 1;
        acc := acc * base;
        acc := acc + c;
      }
      stop := stop + 1;
    }
  }

  // ---------------------------------------------------------------------
  // Against the standard
  // ---------------------------------------------------------------------

  /** strtol converts as C99 asks (within the limits of this library) exactly
      if no hexadecimal prefix stands without a digit. */
  lemma MeetsStandardIff(s: string, base: nat)
    requires Ascii(s) && ValidBase(base)
    ensures Read(s, base) == Convert(s, StandardSubject(s, base)) <==>
            !(HasHexPrefix(s, AfterSign(s).1, base) && DigitValue(CharAt(s, AfterSign(s).1 + 2)) >= 16)
  {
    var i := AfterSign(s).1;
    hide Value;
    if HasHexPrefix(s, i, base) && DigitValue(CharAt(s, i + 2)) >= 16 {
      var u := StandardSubject(s, base);
      assert RunEnd(s, i, u.base) > i;
    }
  }

  /** The result is the value of a longest run of digits, or saturates, with
      ERANGE exactly then; without digits the end pointer is the string. */
  lemma ConversionMeaning(s: string, u: Subject)
    requires u.start <= |s| && 2 <= u.base <= 36
    ensures var r, stop := Convert(s, u), RunEnd(s, u.start, u.base);
            && (forall k | u.start <= k < stop :: DigitValue(s[k]) < u.base)
            && DigitValue(CharAt(s, stop)) >= u.base
            && -LONG_MAX <= r.value <= LONG_MAX
            && (!r.erange ==> Value(s, u.start, stop, u.base) == if u.neg then -r.value else r.value)
            && (r.erange <==> Value(s, u.start, stop, u.base) > LONG_MAX)
            && (r.erange ==> r.value == if u.neg then -LONG_MAX else LONG_MAX)
            && r.end == if stop > u.start then stop else 0
  {
    hide Value;
  }

  // ---------------------------------------------------------------------
  // Printing
  // ---------------------------------------------------------------------

  /** The digits of n, most significant first. */
  function Digits(n: nat, base: nat): (r: seq<nat>)
    requires base >= 2
    ensures |r| >= 1 && forall d | d in r :: d < base
  {
    if n < base then [n] else
      Quotients(n, base);
      Digits(n / base, base) + [n % base]
  }

  lemma Quotients(n: nat, base: nat)
    requires base >= 2
    ensures 0 <= n / base && (n > 0 ==> n / base < n) && 0 <= n % base < base && n == (n / base) * base + n % base
  {
    assert n == (n / base) * base + n % base;
    if n / base < 0 { MulAtLeast(n / base, base); }
    if n / base >= n { MulNonNegative(n / base, base - 2); assert (n / base) * base == (n / base) * (base - 2) + 2 * (n / base); }
  }

  /** "0123456789abcdef"[d] */
  function DigitChar(d: nat): char {
    if d < 16 then "0123456789abcdef"[d] else '?'
  }

  function Text(ds: seq<nat>): (t: string)
    ensures |t| == |ds| && forall i | 0 <= i < |t| :: t[i] == DigitChar(ds[i])
  {
    seq(|ds|, i requires 0 <= i < |ds| => DigitChar(ds[i]))
  }

  const BUFFER: nat := 11     // sizeof(long) * 8 / 3 + 1

  /** Upper bound of what is left of a 32-bit number after k octal digits. */
  function Left(k: nat): nat { if k == 0 then ULONG_MAX else Left(k - 1) / 8 }

  lemma LeftVanishes()
    ensures Left(0) == ULONG_MAX && Left(10) == 3 && Left(11) == 0
  {
    assert Left(1) == 0x1FFF_FFFF;
    assert Left(2) == 0x3FF_FFFF;
    assert Left(3) == 0x7F_FFFF;
    assert Left(4) == 0xF_FFFF;
    assert Left(5) == 0x1_FFFF;
    assert Left(6) == 0x3FFF;
    assert Left(7) == 0x7FF;
    assert Left(8) == 0xFF;
    assert Left(9) == 0x1F;
  }

  lemma Nest(n: nat, base: nat, k: nat)
    requires 8 <= base && n <= Left(k)
    ensures n / base <= Left(k + 1)
  {
    DivCrossMonotone(n, base, n, 8);
    MulNonNegative(n, base - 8);
    DivMonotone(n, Left(k), 8);
  }

  /** printnk: the digits go into a buffer from the last to the first, which is
      then emitted backwards.  For every base from 8 on the buffer suffices. */
  method PrintNk(number: nat, base: nat) returns (out: string)
    requires number <= ULONG_MAX && 8 <= base <= 16
    ensures out == Text(Digits(number, base))
  {
    hide Digits, DigitChar, Left;
    var buf := new char[BUFFER];
    ghost var digits: seq<nat> := [];   // those already in the buffer, in printing order
    var ul: nat := number;
    var p: nat := 0;
    LeftVanishes();
    var more := true;
    while more
      invariant p <= BUFFER && |digits| == p
      invariant more ==> ul <= Left(p) && (p > 0 ==> ul > 0) && Digits(ul, base) + digits == Digits(number, base)
      invariant !more ==> digits == Digits(number, base)
      invariant forall i | 0 <= i < p :: buf[i] == DigitChar(digits[p - 1 - i])
      decreases if more then ul + 1 else 0
    {
      Quotients(ul, base);
      LastDigit(ul, base);
      Nest(ul, base, p);
      ghost var d := ul % base;
      assert Digits(ul / base, base) + [d] + digits == Digits(ul / base, base) + ([d] + digits);
      buf[p] := DigitChar(ul % base);
      digits := [d] + digits;
      p := p + 1;
      ul := ul / base;
      more := ul != 0;
    }
    out := "";
    ghost var n := p;
    while p > 0
      invariant p <= n && out == Text(digits)[..n - p]
    {
      p := p - 1;
      out := out + [buf[p]];
    }
  }

  lemma LastDigit(n: nat, base: nat)
    requires base >= 2
    ensures if n / base == 0 then Digits(n, base) == [n % base]
            else Digits(n, base) == Digits(n / base, base) + [n % base]
  {
    Quotients(n, base);
    if n < base {
      ModSmall(n, base);
    } else {
      DivGreatest(n, base, 1);
    }
  }

  /** The %d arm of doprintk: the sign, then the digits of the magnitude. */
  method PrintDecimal(n: int) returns (out: string)
    requires -LONG_MAX <= n <= LONG_MAX
    ensures out == Decimal(n)
  {
    out := "";
    var ul := n;
    if n < 0 {
      out := "-";
      ul := -n;
    }
    var digits := PrintNk(ul, 10);
    out := out + digits;
  }

  function Decimal(n: int): string {
    if n < 0 then "-" + Text(Digits(-n, 10)) else Text(Digits(n, 10))
  }

  // ---------------------------------------------------------------------
  // What strtol reads, by the text itself
  // ---------------------------------------------------------------------

  /** What strtol returns. */
  function Read(s: string, base: nat): Conversion
    requires ValidBase(base)
  {
    Convert(s, CodeSubject(s, base))
  }

  /** c stands for digit d: 0-9, then letters of either case. */
  predicate Stands(c: char, d: nat) {
    (d < 10 && c as int == '0' as int + d) ||
    (10 <= d < 36 && (c as int == 'a' as int + d - 10 || c as int == 'A' as int + d - 10))
  }

  ghost predicate Spells(t: string, ds: seq<nat>) {
    |t| == |ds| && forall i | 0 <= i < |t| :: Stands(t[i], ds[i])
  }

  /** The number with these digits, most significant first. */
  function Number(ds: seq<nat>, b: nat): nat {
    if ds == [] then 0 else
      MulNonNegative(Number(ds[..|ds| - 1], b), b);
      Number(ds[..|ds| - 1], b) * b + ds[|ds| - 1]
  }

  /** Blank, tab, newline, vertical tab, form feed and carriage return. */
  ghost predicate White(w: string) {
    forall i | 0 <= i < |w| :: w[i] as int in {32, 9, 10, 11, 12, 13}
  }

  /** The notations of C: with a base given, digits of that base; with base 0,
      decimal without and octal with a leading zero; with base 0 or 16,
      hexadecimal after 0x or 0X. */
  predicate Notation(base: nat, pre: string, first: nat, b: nat) {
    || (2 <= base <= 36 && pre == "" && b == base)
    || (base == 0 && pre == "" && first != 0 && b == 10)
    || (base == 0 && pre == "" && first == 0 && b == 8)
    || ((base == 0 || base == 16) && (pre == "0x" || pre == "0X") && b == 16)
  }

  /** The text does not go on with a digit. */
  ghost predicate Ends(rest: string, b: nat) {
    rest == "" || forall d: nat | d < b :: !Stands(rest[0], d)
  }

  /** A single 0 with an x behind it, where that is a prefix. */
  predicate IsPrefix(base: nat, pre: string, ds: seq<nat>, rest: string) {
    (base == 0 || base == 16) && pre == "" && ds == [0] && rest != "" && (rest[0] == 'x' || rest[0] == 'X')
  }

  ghost predicate Signed(sign: string) { sign == "" || sign == "-" || sign == "+" }

  lemma StandsValue(c: char, d: nat)
    ensures d < 36 ==> (Stands(c, d) <==> DigitValue(c) == d)
  {
  }

  lemma StandsPlain(c: char, d: nat)
    requires Stands(c, d)
    ensures d < 36 && !IsSpace(c) && c !in "-+" && (c as int) < 128
    ensures c == '0' <==> d == 0
    ensures d < 16 ==> c !in "xX"
  {
  }

  lemma EndsValue(s: string, i: nat, b: nat)
    requires i <= |s| && b <= 36 && Ends(s[i..], b)
    ensures DigitValue(CharAt(s, i)) >= b
  {
    if i < |s| {
      var v := DigitValue(s[i]);
      if v < b { StandsValue(s[i], v); }
    }
  }

  lemma {:induction false} RunAt(s: string, i: nat, j: nat, b: nat)
    requires i <= j <= |s| && b <= 36
    requires (forall k | i <= k < j :: DigitValue(s[k]) < b) && DigitValue(CharAt(s, j)) >= b
    ensures RunEnd(s, i, b) == j
    decreases j - i
  {
    if i < j { RunAt(s, i + 1, j, b); }
  }

  lemma {:induction false} SkipAt(s: string, i: nat, j: nat)
    requires i <= j <= |s| && (forall k | i <= k < j :: IsSpace(s[k])) && !IsSpace(CharAt(s, j))
    ensures SkipSpaces(s, i) == j
    decreases j - i
  {
    if i < j { SkipAt(s, i + 1, j); }
  }

  /** The value of a run of characters is the number of its digits. */
  lemma {:induction false} ValueIsNumber(s: string, i: nat, ds: seq<nat>, b: nat)
    requires i + |ds| <= |s| && 2 <= b <= 36 && forall k | 0 <= k < |ds| :: DigitValue(s[i + k]) == ds[k]
    ensures Value(s, i, i + |ds|, b) == Number(ds, b)
    decreases |ds|
  {
    if ds != [] {
      var last := |ds| - 1;
      ValueIsNumber(s, i, ds[..last], b);
      ValueSnoc(s, i, i + |ds|, b);
    }
  }

  /** The sign is found after the white space. */
  lemma SignFound(s: string, w: string, sign: string, more: string)
    requires s == w + sign + more && White(w) && Signed(sign)
    requires sign == "" && more != "" ==> !IsSpace(more[0]) && more[0] !in "-+"
    ensures AfterSign(s) == (sign == "-", |w + sign|)
  {
    assert !IsSpace('-') && !IsSpace('+');
    SkipAt(s, 0, |w|);
  }

  /** The subject is found: sign, base and where the digits start. */
  lemma SubjectFound(s: string, w: string, sign: string, pre: string, t: string, rest: string, ds: seq<nat>, base: nat, b: nat)
    requires s == w + sign + (pre + t + rest) && White(w) && Signed(sign) && ValidBase(base) && ds != [] && Spells(t, ds)
    requires (forall d | d in ds :: d < b) && Notation(base, pre, ds[0], b) && !IsPrefix(base, pre, ds, rest)
    ensures CodeSubject(s, base) == Subject(sign == "-", b, |w + sign + pre|)
  {
    hide Spells, IsSpace, Signed, White, Notation;
    var more := pre + t + rest;
    FirstChars(pre, t, rest, ds, base, b);
    SignFound(s, w, sign, more);
    var i := |w + sign|;
    assert CharAt(s, i) == more[0] && CharAt(s, i + 1) == CharAt(more, 1);
    hide AfterSign;
    Prefixed(base, pre, ds[0], b);
  }

  lemma Prefixed(base: nat, pre: string, first: nat, b: nat)
    requires Notation(base, pre, first, b)
    ensures pre == "" || |pre| == 2
    ensures pre != "" ==> (base == 0 || base == 16) && b == 16
    ensures pre == "" ==> if base == 0 then b == (if first == 0 then 8 else 10) else b == base
  {
  }

  lemma FirstChars(pre: string, t: string, rest: string, ds: seq<nat>, base: nat, b: nat)
    requires ds != [] && Spells(t, ds) && (forall d | d in ds :: d < b)
    requires Notation(base, pre, ds[0], b) && !IsPrefix(base, pre, ds, rest)
    ensures var more := pre + t + rest;
            && more != "" && !IsSpace(more[0]) && more[0] !in "-+"
            && (pre != "" ==> more[0] == '0' && CharAt(more, 1) in "xX")
            && (pre == "" ==> (more[0] == '0' <==> ds[0] == 0))
            && (pre == "" && more[0] == '0' && (base == 0 || base == 16) ==> CharAt(more, 1) !in "xX")
  {
    var more := pre + t + rest;
    StandsPlain(t[0], ds[0]);
    assert ds[0] in ds;
    if pre == "" {
      assert more[0] == t[0];
      if |t| > 1 {
        assert ds[1] in ds;
        StandsPlain(t[1], ds[1]);
        assert CharAt(more, 1) == t[1];
      } else if rest != "" {
        assert CharAt(more, 1) == rest[0];
      } else {
        assert CharAt(more, 1) == '\0';
      }
    }
  }

  /** What strtol reads: white space, a sign, a prefix, digits of either case in
      any of the notations, with or without leading zeros, and any text that does
      not go on with a digit.  The value is the number of the digits, or the
      limit with ERANGE if it is larger; everything up to the last digit is
      consumed. */
  lemma ReadsNumber(w: string, sign: string, pre: string, t: string, rest: string, ds: seq<nat>, base: nat, b: nat)
    requires White(w) && Signed(sign) && ValidBase(base) && ds != [] && Spells(t, ds)
    requires (forall d | d in ds :: d < b) && Notation(base, pre, ds[0], b)
    requires Ends(rest, b) && !IsPrefix(base, pre, ds, rest)
    ensures var n := Number(ds, b);
            var m: int := Min(n, LONG_MAX);
            Read(w + sign + pre + t + rest, base)
            == Conversion(if sign == "-" then -m else m, |w + sign + pre + t|, n > LONG_MAX)
  {
    hide Signed, White, Number, Value, RunEnd, CodeSubject, DigitValue, Notation;
    var s := w + sign + pre + t + rest;
    var i, j := |w + sign + pre|, |w + sign + pre + t|;
    assert s == w + sign + (pre + t + rest);
    SubjectFound(s, w, sign, pre, t, rest, ds, base, b);
    BaseSmall(base, pre, ds[0], b);
    forall k | 0 <= k < |ds| ensures DigitValue(s[i + k]) == ds[k] && ds[k] < b {
      assert s[i + k] == t[k] && ds[k] in ds;
      StandsPlain(t[k], ds[k]);
      StandsValue(t[k], ds[k]);
    }
    forall k | i <= k < j ensures DigitValue(s[k]) < b {
      assert s[k] == s[i + (k - i)] && DigitValue(s[i + (k - i)]) == ds[k - i];
    }
    assert s[j..] == rest;
    EndsValue(s, j, b);
    RunAt(s, i, j, b);
    ValueIsNumber(s, i, ds, b);
  }

  /** And what it does not read: without a digit, also after a prefix, the value
      is 0 and nothing is consumed. */
  lemma ReadsNothing(w: string, sign: string, pre: string, rest: string, base: nat)
    requires White(w) && Signed(sign) && ValidBase(base)
    requires pre == "" || ((base == 0 || base == 16) && (pre == "0x" || pre == "0X"))
    requires Ends(rest, if pre != "" then 16 else if base == 0 then 10 else base)
    requires sign == "" && pre == "" && rest != "" ==> rest[0] as int !in {32, 9, 10, 11, 12, 13} && rest[0] !in "-+"
    ensures Read(w + sign + pre + rest, base) == Conversion(0, 0, false)
  {
    hide Signed, White, Value, RunEnd, DigitValue, CodeSubject, Ends;
    var s, i := w + sign + pre + rest, |w + sign + pre|;
    assert s == w + sign + (pre + rest) && s[i..] == rest;
    var b := if pre != "" then 16 else if base == 0 then 10 else base;
    SubjectWithout(s, w, sign, pre, rest, base, b);
    EndsValue(s, i, b);
    RunAt(s, i, i, b);
    NoValue(s, i, b);
  }

  lemma SubjectWithout(s: string, w: string, sign: string, pre: string, rest: string, base: nat, b: nat)
    requires s == w + sign + (pre + rest) && White(w) && Signed(sign) && ValidBase(base)
    requires pre == "" || ((base == 0 || base == 16) && (pre == "0x" || pre == "0X"))
    requires b == (if pre != "" then 16 else if base == 0 then 10 else base) && Ends(rest, b)
    requires sign == "" && pre == "" && rest != "" ==> rest[0] as int !in {32, 9, 10, 11, 12, 13} && rest[0] !in "-+"
    ensures CodeSubject(s, base) == Subject(sign == "-", b, |w + sign + pre|)
  {
    hide Signed, White, DigitValue;
    var i := |w + sign|;
    SignFound(s, w, sign, pre + rest);
    if pre == "" {
      if rest != "" { assert CharAt(s, i) == rest[0] && !Stands(rest[0], 0); }
    } else {
      assert CharAt(s, i) == '0' && CharAt(s, i + 1) == pre[1];
    }
    hide AfterSign;
  }

  lemma NoValue(s: string, i: nat, b: nat)
    requires i <= |s|
    ensures Value(s, i, i, b) == 0
  {
  }

  lemma BaseSmall(base: nat, pre: string, first: nat, b: nat)
    requires Notation(base, pre, first, b)
    ensures 2 <= b <= 36
  {
  }

  // ---------------------------------------------------------------------
  // Reading back what was printed
  // ---------------------------------------------------------------------

  /** The printed digits are those of the number. */
  lemma {:induction false} DigitsNumber(n: nat, base: nat)
    requires base >= 2
    ensures Number(Digits(n, base), base) == n
    decreases n
  {
    Quotients(n, base);
    LastDigit(n, base);
    if n / base > 0 { DigitsNumber(n / base, base); } else { assert Number([], base) == 0; }
    var ds := Digits(n, base);
    assert ds[..|ds| - 1] == if n / base == 0 then [] else Digits(n / base, base);
  }

  lemma TextSpells(ds: seq<nat>)
    requires forall d | d in ds :: d < 16
    ensures Spells(Text(ds), ds)
  {
    forall i | 0 <= i < |ds| ensures Stands(Text(ds)[i], ds[i]) {
      assert ds[i] in ds;
      DigitCharStands(ds[i]);
    }
  }

  lemma DigitCharStands(d: nat)
    requires d < 16
    ensures Stands(DigitChar(d), d)
  {
  }

  /** Only zero is printed with a leading zero. */
  lemma {:induction false} LeadingZero(n: nat, base: nat)
    requires base >= 2
    ensures Digits(n, base)[0] == 0 <==> n == 0
    decreases n
  {
    Quotients(n, base);
    LastDigit(n, base);
    if n / base > 0 { LeadingZero(n / base, base); }
  }

  /** strtol inverts printnk after any white space and sign, whether the digits
      are printed in lower or upper case: in every base both accept, and in base
      0 as C writes decimal, octal and hexadecimal numbers. */
  lemma PrintedReadsBack(w: string, sign: string, pre: string, t: string, n: nat, base: nat, b: nat)
    requires White(w) && Signed(sign) && n <= LONG_MAX && 2 <= b <= 16 && Spells(t, Digits(n, b))
    requires || (base == b && pre == "")
             || (base == 0 && b == 10 && pre == "" && n > 0)
             || (base == 0 && b == 8 && pre == "0")
             || ((base == 0 || base == 16) && b == 16 && (pre == "0x" || pre == "0X"))
    ensures var s := w + sign + pre + t;
            Read(s, base) == Conversion(if sign == "-" then -(n as int) else n, |s|, false)
  {
    hide Digits, Number, Read, White, Signed;
    var ds := Digits(n, b);
    DigitsNumber(n, b);
    LeadingZero(n, b);
    if pre == "0" {
      assert Spells(pre + t, [0] + ds);
      NumberZero(ds, b);
      assert w + sign + "" + (pre + t) + "" == w + sign + pre + t;
      ReadsNumber(w, sign, "", pre + t, "", [0] + ds, base, b);
    } else {
      assert w + sign + pre + t + "" == w + sign + pre + t;
      ReadsNumber(w, sign, pre, t, "", ds, base, b);
    }
  }

  /** A leading zero does not matter. */
  lemma {:induction false} NumberZero(ds: seq<nat>, b: nat)
    ensures Number([0] + ds, b) == Number(ds, b)
    decreases |ds|
  {
    if ds == [] {
      assert ([0] + ds)[..0] == [];
      assert Number([], b) == 0;
    } else {
      var last := |ds| - 1;
      NumberZero(ds[..last], b);
      assert ([0] + ds)[..last + 1] == [0] + ds[..last];
    }
  }

  /** What printnk printed, with the sign of %d before it. */
  lemma TextReadsBack(sign: string, n: nat, base: nat)
    requires (sign == "" || sign == "-") && n <= LONG_MAX && 2 <= base <= 16
    ensures var s := sign + Text(Digits(n, base));
            Read(s, base) == Conversion(if sign == "-" then -(n as int) else n, |s|, false)
  {
    hide Digits, Text, Read;
    TextSpells(Digits(n, base));
    PrintedReadsBack("", sign, "", Text(Digits(n, base)), n, base, base);
    assert "" + sign + "" + Text(Digits(n, base)) == sign + Text(Digits(n, base));
  }

  /** Reading back what %d printed. */
  lemma DecimalReadsBack(n: int)
    requires -LONG_MAX <= n <= LONG_MAX
    ensures Read(Decimal(n), 10) == Conversion(n, |Decimal(n)|, false)
  {
    hide Digits, Read, Text;
    TextReadsBack(if n < 0 then "-" else "", if n < 0 then -n else n, 10);
    assert n >= 0 ==> "" + Text(Digits(n, 10)) == Text(Digits(n, 10));
  }

  // ---------------------------------------------------------------------
  // ostream
  // ---------------------------------------------------------------------

  function Power10(k: nat): nat { if k == 0 then 1 else 10 * Power10(k - 1) }

  /** The last k decimal digits of n, with leading zeros. */
  function FixedDigits(n: nat, k: nat): (r: seq<nat>)
    ensures |r| == k
  {
    if k == 0 then [] else FixedDigits(n / 10, k - 1) + [n % 10]
  }

  /** Taking the leading digit off. */
  lemma {:induction false} FixedLeading(n: nat, k: nat)
    requires k > 0 && n < Power10(k)
    ensures Power10(k - 1) > 0
    ensures FixedDigits(n, k) == [n / Power10(k - 1)] + FixedDigits(n % Power10(k - 1), k - 1)
  {
    if k == 1 {
      assert FixedDigits(n / 10, 0) == [];
    } else {
      var w := Power10(k - 2);
      FixedLeading(n / 10, k - 1);
      NestedQuotient(n, w);
      assert FixedDigits(n % (10 * w), k - 1) == FixedDigits(n % (10 * w) / 10, k - 2) + [n % (10 * w) % 10];
    }
  }

  lemma NestedQuotient(n: nat, w: nat)
    requires w > 0
    ensures n / 10 / w == n / (10 * w)
    ensures n % (10 * w) / 10 == n / 10 % w
    ensures n % (10 * w) % 10 == n % 10
  {
    var q, r := n / 10, n % 10;
    var a, b := q / w, q % w;
    assert q == a * w + b;
    assert n == a * (10 * w) + (10 * b + r);
    DivModUnique(n, 10 * w, a, 10 * b + r);
    DivModUnique(10 * b + r, 10, b, r);
  }

  /** A number of exactly k digits. */
  lemma {:induction false} FixedIsDigits(n: nat, k: nat)
    requires k > 0 && n < Power10(k) && (k == 1 || Power10(k - 1) <= n)
    ensures FixedDigits(n, k) == Digits(n, 10)
    decreases k
  {
    LastDigit(n, 10);
    if k == 1 {
      assert FixedDigits(n / 10, 0) == [];
    } else {
      FixedIsDigits(n / 10, k - 1);
    }
  }

  /** operator<<(unsigned long): walks down the powers of ten. */
  method Insert(number: nat) returns (out: string)
    requires number <= ULONG_MAX
    ensures out == Text(Digits(number, 10))
  {
    hide Digits, FixedDigits, DigitChar;
    var printing := false;
    var walker: nat := 1000000000;
    var i: nat := number;
    ghost var k: nat := 10;
    TenPowers();
    out := "";
    while walker > 0
      invariant k <= 10 && walker == (if k == 0 then 0 else Power10(k - 1)) && i < Power10(k)
      invariant k == 0 ==> out == Text(Digits(number, 10))
      invariant k > 0 && printing ==> out + Text(FixedDigits(i, k)) == Text(Digits(number, 10))
      invariant k > 0 && !printing ==> out == "" && i == number
      decreases k
    {
      WalkStep(number, i, k, printing, out);
      var temp: nat := i / walker;
      if temp > 0 {
        printing := true;
      }
      if printing || walker == 1 {
        out := out + [('0' as int + temp) as char];
      }
      i := i % walker;
      walker := walker / 10;
      k := k - 1;
    }
  }

  lemma TenPowers()
    ensures Power10(9) == 1000000000 && Power10(10) == 10000000000
  {
    assert Power10(3) == 1000;
    assert Power10(6) == 1000000;
  }

  /** One round of the loop: what is printed and what is left to print. */
  lemma WalkStep(number: nat, i: nat, k: nat, printing: bool, out: string)
    requires k > 0 && i < Power10(k)
    requires printing ==> out + Text(FixedDigits(i, k)) == Text(Digits(number, 10))
    requires !printing ==> out == "" && i == number
    ensures Power10(k - 1) > 0 && (k > 1 ==> Power10(k - 1) / 10 == Power10(k - 2)) && (Power10(k - 1) == 1 <==> k == 1)
    ensures var w := Power10(k - 1);
            var temp := i / w;
            && 0 <= temp < 10 && ('0' as int + temp) as char == DigitChar(temp) && 0 <= i % w < w
            && (printing || temp > 0 ==>
                  out + [DigitChar(temp)] + Text(FixedDigits(i % w, k - 1)) == Text(Digits(number, 10)))
            && (!printing && temp == 0 ==> i % w == number)
            && (!printing && temp == 0 && k == 1 ==> [DigitChar(temp)] == Text(Digits(number, 10)))
            && Text(FixedDigits(i % w, 0)) == ""
  {
    var w := Power10(k - 1);
    FixedLeading(i, k);
    PowerOne(k - 1);
    var temp := i / w;
    TempIsDigit(i, w);
    hide Digits, Power10;
    TextCons(temp, FixedDigits(i % w, k - 1));
    if printing {
      assert out + ([DigitChar(temp)] + Text(FixedDigits(i % w, k - 1)))
          == out + [DigitChar(temp)] + Text(FixedDigits(i % w, k - 1));
    } else if temp > 0 || k == 1 {
      FixedIsDigits(number, k);
    }
  }

  lemma {:induction false} PowerOne(k: nat)
    ensures Power10(k) >= 1 && (Power10(k) == 1 <==> k == 0) && (k > 0 ==> Power10(k) / 10 == Power10(k - 1))
  {
    if k > 0 { PowerOne(k - 1); }
  }

  lemma TempIsDigit(i: nat, w: nat)
    requires w > 0 && i < 10 * w
    ensures 0 <= i / w < 10 && ('0' as int + i / w) as char == DigitChar(i / w) && 0 <= i % w < w
    ensures i / w == 0 <==> i < w
    ensures i < w ==> i % w == i
  {
    var q := i / w;
    assert i == q * w + i % w;
    MulAtLeast(q - 10, w);
    MulAtLeast(q, w);
    assert (q - 10) * w == q * w - 10 * w;
    if q == 0 { assert q * w == 0; }
    if i < w { ModSmall(i, w); }
    if q >= 10 { MulNonNegative(q - 10, w); }
  }

  lemma TextCons(d: nat, ds: seq<nat>)
    ensures Text([d] + ds) == [DigitChar(d)] + Text(ds)
  {
  }

  /** The signed insertion operators print what %d prints. */
  method InsertSigned(n: int) returns (out: string)
    requires -LONG_MAX <= n <= LONG_MAX
    ensures out == Decimal(n)
  {
    out := "";
    var i := n;
    if i < 0 {
      out := "-";
      i := -i;
    }
    var digits := Insert(i);
    out := out + digits;
  }
}
