/** ltoa.c and stdlib_helper.h: integers to strings, and what strtol makes of them. */
module Ltoa {
  import opened Strtol

  // ----- truncating division

  function Quot(n: int, base: int): int
    requires 0 < base
  {
    if n >= 0 then n / base else -((-n) / base)
  }

  function Rem(n: int, base: int): int
    requires 0 < base
  {
    n - Quot(n, base) * base
  }

  lemma Halves(m: int, base: int)
    requires 2 <= base && 0 < m
    ensures m == (m / base) * base + m % base && 0 <= m / base < m && 0 <= m % base < base
  {
    var q, r := m / base, m % base;
    assert m == base * q + r;
    Smaller(m, base, q, r);
  }

  lemma Smaller(m: int, base: int, q: int, r: int)
    requires 2 <= base && 0 < m && m == base * q + r && 0 <= r < base
    ensures 0 <= q < m
  {
    if q < 0 {
      NextMultiple(q, 0, base);
    } else if q > 0 {
      NextMultiple(1, base, q);
    }
  }

  lemma QuotFacts(n: int, base: int)
    requires 2 <= base
    ensures n == Quot(n, base) * base + Rem(n, base)
    ensures n > 0 ==> 0 <= Quot(n, base) < n && 0 <= Rem(n, base) < base
    ensures n < 0 ==> n < Quot(n, base) <= 0 && -base < Rem(n, base) <= 0
  {
    if n > 0 {
      Halves(n, base);
    } else if n < 0 {
      Halves(-n, base);
      Negated(-n / base, base);
    }
  }

  lemma Negated(q: int, base: int)
    ensures (-q) * base == -(q * base)
  {
  }

  // ----- what is printed

  /** The character of a remainder, which is negative for a negative number. */
  function RemChar(r: int): char
    requires -36 < r < 36
  {
    if r > 9 then (r - 10 + 'a' as int) as char else (r + '0' as int) as char
  }

  function Rendered(n: int, base: int): string
    requires 2 <= base <= 36
    decreases if n >= 0 then n else -n
  {
    QuotFacts(n, base);
    if n == 0 then "" else Rendered(Quot(n, base), base) + [RemChar(Rem(n, base))]
  }

  /** Only base 10 gets a sign. */
  function Printed(n: int, base: int): string
    requires 2 <= base <= 36
  {
    if n == 0 then "0"
    else if n < 0 && base == 10 then "-" + Rendered(Signed(-n), base)
    else Rendered(n, base)
  }

  // ----- strrev

  function Reversed(s: string): string
  {
    if s == "" then "" else [s[|s| - 1]] + Reversed(s[..|s| - 1])
  }

  lemma {:induction false} ReversedAt(s: string, i: nat)
    requires i < |s|
    ensures |Reversed(s)| == |s| && Reversed(s)[i] == s[|s| - 1 - i]
    decreases |s|
  {
    if |s| > 1 {
      ReversedAt(s[..|s| - 1], if i == 0 then 0 else i - 1);
    }
  }

  /** strlen of a string in a larger array. */
  predicate IsLength(a: seq<char>, n: nat)
  {
    n < |a| && a[n] == '\0' && '\0' !in a[..n]
  }

  method StrLen(str: array<char>, ghost n: nat) returns (r: nat)
    requires IsLength(str[..], n)
    ensures r == n
  {
    assert forall i :: 0 <= i < n ==> str[i] == str[..][..n][i];
    r := 0;
    while str[r] != '\0'
      invariant r <= n
      decreases n - r
    {
      r := r + 1;
    }
  }

  /** strrev; false for the empty string, where `strlen(str) - 1` wraps to an index that no
      buffer has, so that the first swap would leave it. */
  method StrRev(str: array<char>, ghost n: nat) returns (inside: bool)
    requires IsLength(str[..], n)
    modifies str
    ensures inside <==> n > 0
    ensures str[..n] == Reversed(old(str[..n])) && forall i :: n <= i < str.Length ==> str[i] == old(str[i])
  {
    var len := StrLen(str, n);
    inside := len > 0;
    if !inside {
      return;
    }
    var start, end := 0, len - 1;
    while start < end
      invariant 0 <= start <= n && start + end == n - 1
      invariant forall i :: 0 <= i < start ==> str[i] == old(str[n - 1 - i])
      invariant forall i :: end < i < n ==> str[i] == old(str[n - 1 - i])
      invariant forall i :: start <= i <= end ==> str[i] == old(str[i])
      invariant forall i :: n <= i < str.Length ==> str[i] == old(str[i])
    {
      str[start], str[end] := str[end], str[start];
      start, end := start + 1, end - 1;
    }
    ghost var was := old(str[..n]);
    forall i | 0 <= i < n
      ensures |Reversed(was)| == n && str[i] == Reversed(was)[i]
    {
      ReversedAt(was, i);
      assert was[n - 1 - i] == old(str[n - 1 - i]);
    }
    ReversedAt(was, 0);
  }

  // ----- ltoa

  lemma {:induction false} NoNul(n: int, base: int)
    requires 2 <= base <= 36
    ensures '\0' !in Rendered(n, base)
    decreases if n >= 0 then n else -n
  {
    QuotFacts(n, base);
    if n != 0 {
      NoNul(Quot(n, base), base);
    }
  }

  lemma {:induction false} ReversedNul(s: string)
    requires '\0' !in Reversed(s)
    ensures '\0' !in s
  {
    forall i | 0 <= i < |s|
      ensures s[i] != '\0'
    {
      ReversedAt(s, |s| - 1 - i);
      assert s[i] == Reversed(s)[|s| - 1 - i];
    }
  }

  /** One digit moves from the number to the reversed string. */
  lemma DigitStep(num: int, base: int, before: string)
    requires 2 <= base <= 36 && num != 0
    ensures -base < Rem(num, base) < base
    ensures Rendered(num, base) + Reversed(before) == Rendered(Quot(num, base), base) + Reversed(before + [RemChar(Rem(num, base))])
    ensures |Rendered(num, base)| == |Rendered(Quot(num, base), base)| + 1
  {
    QuotFacts(num, base);
    var last := RemChar(Rem(num, base));
    assert (before + [last])[..|before|] == before;
    assert Rendered(Quot(num, base), base) + [last] + Reversed(before) == Rendered(Quot(num, base), base) + ([last] + Reversed(before));
  }

  /** The digit loop: the digits of `num0` are left in `str`, last one first. */
  method WriteDigits(num0: int, str: array<char>, base: int) returns (k: nat)
    requires 2 <= base <= 36 && |Rendered(num0, base)| <= str.Length
    modifies str
    ensures k == |Rendered(num0, base)| && Reversed(str[..k]) == Rendered(num0, base)
    ensures forall i :: k <= i < str.Length ==> str[i] == old(str[i])
  {
    var num := num0;
    k := 0;
    assert Rendered(num, base) + Reversed(str[..k]) == Rendered(num0, base);
    while num != 0
      invariant k + |Rendered(num, base)| == |Rendered(num0, base)|
      invariant Rendered(num, base) + Reversed(str[..k]) == Rendered(num0, base)
      invariant k <= str.Length && forall i :: k <= i < str.Length ==> str[i] == old(str[i])
      decreases if num >= 0 then num else -num
    {
      QuotFacts(num, base);
      var remainder := Rem(num, base);
      ghost var before := str[..k];
      str[k] := if remainder > 9 then (remainder - 10 + 'a' as int) as char else (remainder + '0' as int) as char;
      assert str[..k + 1] == before + [RemChar(remainder)];
      DigitStep(num, base, before);
      num := Quot(num, base);
      k := k + 1;
    }
  }

  /** The end of ltoa: `k` characters are terminated and reversed. */
  method Finish(str: array<char>, k: nat)
    requires k < str.Length && '\0' !in str[..k]
    modifies str
    ensures str[..k + 1] == Reversed(old(str[..k])) + ['\0'] && forall i :: k < i < str.Length ==> str[i] == old(str[i])
  {
    str[k] := '\0';
    assert str[..][..k] == str[..k] == old(str[..k]);
    var inside := StrRev(str, k);
    assert str[..k + 1] == str[..k] + [str[k]];
  }

  /** ltoa: writes the printed form and a NUL, into a buffer that has room for them. */
  method LToA(num0: int, str: array<char>, base: int)
    requires LONG_MIN <= num0 <= LONG_MAX && 2 <= base <= 36 && |Printed(num0, base)| < str.Length
    modifies str
    ensures var p := Printed(num0, base);
            str[..|p| + 1] == p + ['\0'] && forall i :: |p| < i < str.Length ==> str[i] == old(str[i])
  {
    if num0 == 0 {
      str[0] := '0';
      str[1] := '\0';
      return;
    }
    var num, neg := num0, false;
    if num < 0 && base == 10 {
      neg := true;
      num := Signed(-num);
    }
    var k := WriteDigits(num, str, base);
    NoNul(num, base);
    if neg {
      ghost var digits := str[..k];
      str[k] := '-';
      assert str[..k + 1][..k] == digits;
      k := k + 1;
    }
    assert Reversed(str[..k]) == Printed(num0, base);
    ReversedAt(str[..k], 0);
    ReversedNul(str[..k]);
    Finish(str, k);
  }
}
