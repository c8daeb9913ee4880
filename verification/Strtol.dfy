/** strtol.c: strings to integers, proved against the unbounded value of the digits. */
module Strtol {

  const LONG_MAX := 2147483647
  const LONG_MIN := -2147483648
  const ULONG_MAX := 4294967295

  // ----- characters

  /** Character `i` of a string, which ends in NUL. */
  function At(s: string, i: nat): char
  {
    if i < |s| then s[i] else '\0'
  }

  predicate IsSpace(c: char)
  {
    c == ' ' || c == '\t' || c == '\n'
  }

  /** The value of a digit or letter; other characters end every number. */
  function Digit(c: char): (d: int)
    ensures 0 <= d
    ensures d < 36 ==> c != '\0'
  {
    if '0' <= c <= '9' then c as int - '0' as int
    else if 'A' <= c <= 'Z' then c as int - 'A' as int + 10
    else if 'a' <= c <= 'z' then c as int - 'a' as int + 10
    else 99
  }

  // ----- what a string denotes

  function SkipSpace(s: string, i: nat): (r: nat)
    requires i <= |s|
    ensures i <= r <= |s|
    decreases |s| - i
  {
    if IsSpace(At(s, i)) then SkipSpace(s, i + 1) else i
  }

  /** Where the sign has been passed. */
  function AfterSign(s: string): (j: nat)
  {
    var i := SkipSpace(s, 0);
    if At(s, i) == '-' || At(s, i) == '+' then i + 1 else i
  }

  function DigitsEnd(s: string, i: nat, base: int): (r: nat)
    requires i <= |s| && base <= 36
    ensures i <= r <= |s|
    decreases |s| - i
  {
    if Digit(At(s, i)) < base then DigitsEnd(s, i + 1, base) else i
  }

  /** The true value of the digits from `lo` up to `hi`. */
  function Value(s: string, lo: nat, hi: nat, base: int): int
    requires lo <= hi <= |s|
    decreases hi
  {
    if lo == hi then 0 else Value(s, lo, hi - 1, base) * base + Digit(s[hi - 1])
  }

  /** A number in a string: its sign, its base, and where its digits are. */
  datatype Number = Number(neg: bool, base: int, lo: nat, hi: nat)

  /** Bases 16, 2 and 0 allow a prefix, and base 0 takes 8 or 10 otherwise. */
  function Prefix(s: string, i: nat, base: int): (int, nat)
  {
    if (base == 0 || base == 16) && At(s, i) == '0' && (At(s, i + 1) == 'x' || At(s, i + 1) == 'X') then (16, i + 2)
    else if (base == 0 || base == 2) && At(s, i) == '0' && (At(s, i + 1) == 'b' || At(s, i + 1) == 'B') then (2, i + 2)
    else if base == 0 then (if At(s, i) == '0' then 8 else 10, i)
    else (base, i)
  }

  predicate BaseOk(base: int)
  {
    base == 0 || 2 <= base <= 36
  }

  function Scan(s: string, base: int): (n: Number)
    requires BaseOk(base)
    ensures 2 <= n.base <= 36 && n.lo <= n.hi <= |s|
  {
    var (b, lo) := Prefix(s, AfterSign(s), base);
    Number(At(s, SkipSpace(s, 0)) == '-', b, lo, DigitsEnd(s, lo, b))
  }

  function Clamp(x: int, lo: int, hi: int): int
  {
    if x < lo then lo else if x > hi then hi else x
  }

  /** The value the string denotes, as large as it may be. */
  function Denoted(s: string, base: int): int
    requires BaseOk(base)
  {
    var n := Scan(s, base);
    if n.neg then -Value(s, n.lo, n.hi, n.base) else Value(s, n.lo, n.hi, n.base)
  }

  /** Where the conversion stops: at 0 when there was no digit. */
  function EndOf(s: string, base: int): nat
    requires BaseOk(base)
  {
    var n := Scan(s, base);
    if n.lo < n.hi then n.hi else 0
  }

  // ----- the loop

  lemma {:induction false} ValueGrows(s: string, lo: nat, hi: nat, more: nat, base: int)
    requires lo <= hi <= more <= |s| && 1 <= base
    ensures 0 <= Value(s, lo, hi, base) <= Value(s, lo, more, base)
    decreases more
  {
    if hi < more {
      ValueGrows(s, lo, hi, more - 1, base);
      Grows(Value(s, lo, more - 1, base), base);
    } else if lo < hi {
      ValueGrows(s, lo, hi - 1, hi - 1, base);
      Grows(Value(s, lo, hi - 1, base), base);
    }
  }

  lemma Grows(v: int, base: int)
    requires 0 <= v && 1 <= base
    ensures v <= v * base
  {
  }

  /** The cutoff test is exact: it stops just when the next digit passes the limit. */
  lemma CutoffExact(acc: int, d: int, base: int, cutoff: int, cutlim: int)
    requires 0 <= acc && 0 <= d < base && 0 <= cutlim < base
    ensures acc > cutoff || (acc == cutoff && d > cutlim) <==> acc * base + d > cutoff * base + cutlim
  {
    if acc > cutoff {
      NextMultiple(cutoff, acc, base);
    } else if acc < cutoff {
      NextMultiple(acc, cutoff, base);
    }
  }

  lemma NextMultiple(a: int, b: int, base: int)
    requires a < b && 0 < base
    ensures a * base + base <= b * base
  {
    Grows(b - a - 1, base);
    assert (b - a - 1) * base == b * base - a * base - base;
  }

  /** The digit loop of strtol and strtoul: `any` is 0 without digits, -1 when their value
      passes the limit, and otherwise the value is in the accumulator, which never
      overflows. */
  method Accumulate(s: string, lo: nat, base: int, limit: int) returns (acc: int, any: int, i: nat)
    requires lo <= |s| && 2 <= base <= 36 && 0 <= limit <= ULONG_MAX
    ensures i == DigitsEnd(s, lo, base) + 1
    ensures any == 0 <==> DigitsEnd(s, lo, base) == lo
    ensures any < 0 <==> Value(s, lo, i - 1, base) > limit
    ensures any >= 0 ==> acc == Value(s, lo, i - 1, base)
    ensures 0 <= acc <= limit
  {
    var cutoff, cutlim := limit / base, limit % base;
    assert limit == cutoff * base + cutlim;
    var c := At(s, lo);
    acc, any, i := 0, 0, lo + 1;
    while Digit(c) < base
      invariant lo < i <= |s| + 1 && c == At(s, i - 1) && DigitsEnd(s, i - 1, base) == DigitsEnd(s, lo, base)
      invariant 0 <= acc <= limit && (any == 0 <==> i - 1 == lo)
      invariant if any < 0 then Value(s, lo, i - 1, base) > limit else acc == Value(s, lo, i - 1, base)
      decreases |s| + 1 - i
    {
      var d := Digit(c);
      ValueGrows(s, lo, i - 1, i, base);
      CutoffExact(acc, d, base, cutoff, cutlim);
      if any < 0 || acc > cutoff || (acc == cutoff && d > cutlim) {
        any := -1;
      } else {
        any := 1;
        acc := acc * base;
        acc := acc + d;
      }
      c := At(s, i);
      i := i + 1;
    }
  }

  /** What comes before the digits. */
  method Start(s: string, base0: int) returns (neg: bool, base: int, lo: nat)
    requires BaseOk(base0)
    ensures var n := Scan(s, base0); neg == n.neg && base == n.base && lo == n.lo
  {
    var i, c := 1, At(s, 0);
    while IsSpace(c)
      invariant 1 <= i <= |s| + 1 && c == At(s, i - 1) && SkipSpace(s, i - 1) == SkipSpace(s, 0)
      decreases |s| + 1 - i
    {
      c, i := At(s, i), i + 1;
    }
    neg, base := false, base0;
    if c == '-' {
      neg := true;
      c, i := At(s, i), i + 1;
    } else if c == '+' {
      c, i := At(s, i), i + 1;
    }
    if (base == 0 || base == 16) && c == '0' && (At(s, i) == 'x' || At(s, i) == 'X') {
      c, i, base := At(s, i + 1), i + 2, 16;
    } else if (base == 0 || base == 2) && c == '0' && (At(s, i) == 'b' || At(s, i) == 'B') {
      c, i, base := At(s, i + 1), i + 2, 2;
    }
    if base == 0 {
      base := if c == '0' then 8 else 10;
    }
    lo := i - 1;
  }

  /** The signed value of a 32-bit word. */
  function Signed(x: int): int
  {
    (x + 0x8000_0000) % 0x1_0000_0000 - 0x8000_0000
  }

  /** strtol: the value the string denotes, clamped to the range of long (section 7.20.1.4
      of ISO/IEC 9899:1999). */
  method StrToL(s: string, base0: int) returns (r: int, end: nat)
    requires BaseOk(base0)
    ensures r == Clamp(Denoted(s, base0), LONG_MIN, LONG_MAX)
    ensures var v := Denoted(s, base0);
            r == if v < -2147483648 then -2147483648 else if v > 2147483647 then 2147483647 else v
    ensures end == EndOf(s, base0)
  {
    hide Value;
    var neg, base, lo := Start(s, base0);
    var limit := if neg then -LONG_MIN else LONG_MAX;
    var acc, any, i := Accumulate(s, lo, base, limit);
    ValueGrows(s, lo, i - 1, i - 1, base);
    if any < 0 {
      acc := if neg then LONG_MIN else LONG_MAX;
    } else if neg {
      acc := Signed(-acc);
    }
    r, end := acc, if any != 0 then i - 1 else 0;
  }

  /** strtoul: too large a value is ULONG_MAX, and a minus sign negates modulo 2^32. */
  method StrToUL(s: string, base0: int) returns (r: int, end: nat)
    requires BaseOk(base0)
    ensures var v := Denoted(s, base0);
            r == if v > 4294967295 || v < -4294967295 then 4294967295 else v % 4294967296
    ensures end == EndOf(s, base0)
  {
    hide Value;
    var neg, base, lo := Start(s, base0);
    var acc, any, i := Accumulate(s, lo, base, ULONG_MAX);
    ValueGrows(s, lo, i - 1, i - 1, base);
    if any < 0 {
      acc := ULONG_MAX;
    } else if neg {
      acc := (-acc) % (ULONG_MAX + 1);
    }
    r, end := acc, if any != 0 then i - 1 else 0;
  }

  // ----- the prefix

  /** A prefix the base allows, at `j`, with no digit behind it. */
  predicate Bare(s: string, j: nat, base: int)
  {
    var c, d := At(s, j + 1), Digit(At(s, j + 2));
    && At(s, j) == '0'
    && (((base == 0 || base == 16) && (c == 'x' || c == 'X') && d >= 16)
        || ((base == 0 || base == 2) && (c == 'b' || c == 'B') && d >= 2))
  }

  /** The number of the standard (section 7.20.1.4 of ISO/IEC 9899:1999, with a prefix 0b
      beside 0x): a prefix counts only with a digit behind it. */
  function StandardScan(s: string, base: int): (n: Number)
    requires BaseOk(base)
    ensures 2 <= n.base <= 36 && n.lo <= n.hi <= |s|
  {
    var j := AfterSign(s);
    if Bare(s, j, base) then
      var b := if base == 0 then 8 else base;
      Number(At(s, SkipSpace(s, 0)) == '-', b, j, DigitsEnd(s, j, b))
    else Scan(s, base)
  }

  /** The code meets the standard except at a bare prefix: there the standard reads the
      digit 0, the code no number at all. The value is 0 either way. */
  lemma PrefixQuirk(s: string, base: int)
    requires BaseOk(base)
    ensures var n, m := Scan(s, base), StandardScan(s, base);
            && (EndOf(s, base) == (if m.lo < m.hi then m.hi else 0) <==> !Bare(s, AfterSign(s), base))
            && Denoted(s, base) == (if m.neg then -1 else 1) * Value(s, m.lo, m.hi, m.base)
            && (Bare(s, AfterSign(s), base) ==> EndOf(s, base) == 0 && m.hi == AfterSign(s) + 1)
  {
    var j, m := AfterSign(s), StandardScan(s, base);
    if Bare(s, j, base) {
      assert DigitsEnd(s, j, m.base) == DigitsEnd(s, j + 1, m.base) == j + 1;
      assert Value(s, j, j + 1, m.base) == Value(s, j, j, m.base) * m.base + Digit(s[j]);
    }
  }

  /** The string "0x" for base 0 or 16. */
  lemma BareHex(base: int)
    requires base == 0 || base == 16
    ensures Bare("0x", AfterSign("0x"), base) && EndOf("0x", base) == 0 && StandardScan("0x", base).hi == 1
  {
    PrefixQuirk("0x", base);
  }
}
