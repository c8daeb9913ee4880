/** strtol reads back what ltoa printed: exactly which numbers, in which bases. */
module LongRoundTrip {
  import opened Strtol
  import opened Ltoa

  // ----- strings of digits

  /** All characters from `lo` on are digits of the base. */
  predicate AllDigits(s: string, lo: nat, base: int)
  {
    forall i :: lo <= i < |s| ==> Digit(s[i]) < base
  }

  lemma {:induction false} AllDigitsEnd(s: string, i: nat, base: int)
    requires i <= |s| && base <= 36 && AllDigits(s, i, base)
    ensures DigitsEnd(s, i, base) == |s|
    decreases |s| - i
  {
    if i < |s| {
      AllDigitsEnd(s, i + 1, base);
    }
  }

  lemma {:induction false} ValueShift(a: string, s: string, hi: nat, base: int)
    requires hi <= |s|
    ensures Value(a + s, |a|, |a| + hi, base) == Value(s, 0, hi, base)
    decreases hi
  {
    if hi > 0 {
      ValueShift(a, s, hi - 1, base);
      assert (a + s)[|a| + hi - 1] == s[hi - 1];
    }
  }

  lemma {:induction false} ValuePrefix(s: string, t: string, hi: nat, base: int)
    requires hi <= |s|
    ensures Value(s + t, 0, hi, base) == Value(s, 0, hi, base)
    decreases hi
  {
    if hi > 0 {
      ValuePrefix(s, t, hi - 1, base);
      assert (s + t)[hi - 1] == s[hi - 1];
    }
  }

  // ----- numbers that are not negative

  lemma RemDigit(r: int, base: int)
    requires 0 <= r < base <= 36
    ensures Digit(RemChar(r)) == r && (RemChar(r) == '0' ==> r == 0)
    ensures !IsSpace(RemChar(r)) && RemChar(r) != '-' && RemChar(r) != '+'
  {
  }

  /** The printed digits of a positive number have its value, and no leading zero. */
  lemma {:induction false} RenderedValue(n: int, base: int)
    requires 0 < n && 2 <= base <= 36
    ensures var s := Rendered(n, base);
            && |s| > 0 && AllDigits(s, 0, base) && Value(s, 0, |s|, base) == n
            && s[0] != '0' && !IsSpace(s[0]) && s[0] != '-' && s[0] != '+'
    decreases n
  {
    QuotFacts(n, base);
    var q, r := Quot(n, base), Rem(n, base);
    var s, high := Rendered(n, base), Rendered(q, base);
    RemDigit(r, base);
    ValuePrefix(high, [RemChar(r)], |high|, base);
    if q > 0 {
      RenderedValue(q, base);
      assert s[0] == high[0];
    } else {
      assert high == "" && r == n;
    }
    assert forall i :: 0 <= i < |high| ==> s[i] == high[i];
    assert Value(s, 0, |s|, base) == Value(s, 0, |high|, base) * base + Digit(s[|high|]);
  }

  lemma PlainScan(s: string, base: int)
    requires 2 <= base <= 36 && |s| > 0 && AllDigits(s, 0, base) && !IsSpace(s[0]) && s[0] != '-' && s[0] != '+'
    requires s[0] == '0' ==> |s| == 1
    ensures Scan(s, base) == Number(false, base, 0, |s|)
  {
    AllDigitsEnd(s, 0, base);
  }

  lemma SignedScan(s: string, base: int)
    requires 2 <= base <= 36 && |s| > 0 && AllDigits(s, 0, base) && s[0] != '0'
    ensures Scan("-" + s, base) == Number(true, base, 1, |s| + 1)
  {
    var t := "-" + s;
    assert t[1..] == s && AllDigits(t, 1, base);
    AllDigitsEnd(t, 1, base);
  }

  // ----- negative numbers without a sign

  /** Characters up to '0', which are all a negative number prints as. */
  predicate Low(s: string)
  {
    forall i :: 0 <= i < |s| ==> s[i] <= '0'
  }

  lemma {:induction false} RenderedLow(n: int, base: int)
    requires n < 0 && 2 <= base <= 36
    ensures Low(Rendered(n, base))
    decreases -n
  {
    QuotFacts(n, base);
    if Quot(n, base) < 0 {
      RenderedLow(Quot(n, base), base);
    }
  }

  /** Their only digit is 0. */
  lemma {:induction false} LowValue(s: string, lo: nat, k: nat, base: int)
    requires Low(s) && lo <= k <= |s| && 2 <= base <= 36
    requires DigitsEnd(s, k, base) == DigitsEnd(s, lo, base) && Value(s, lo, k, base) == 0
    ensures Value(s, lo, DigitsEnd(s, lo, base), base) == 0
    decreases |s| - k
  {
    if Digit(At(s, k)) < base {
      assert s[k] <= '0' && Digit(s[k]) == 0;
      LowValue(s, lo, k + 1, base);
    }
  }

  lemma LowDenotesZero(s: string, base: int)
    requires Low(s) && 2 <= base <= 36
    ensures Denoted(s, base) == 0
  {
    var n := Scan(s, base);
    assert At(s, n.lo) != 'x';
    LowValue(s, n.lo, n.lo, n.base);
  }

  // ----- the round trip

  lemma PrintedPositive(n: int, base: int)
    requires 0 <= n && 2 <= base <= 36
    ensures Denoted(Printed(n, base), base) == n && EndOf(Printed(n, base), base) == |Printed(n, base)|
  {
    if n > 0 {
      RenderedValue(n, base);
    }
    PlainScan(Printed(n, base), base);
  }

  lemma SignedDenotes(s: string, base: int)
    requires 2 <= base <= 36 && |s| > 0 && AllDigits(s, 0, base) && s[0] != '0'
    ensures Denoted("-" + s, base) == -Value(s, 0, |s|, base) && EndOf("-" + s, base) == |s| + 1
  {
    SignedScan(s, base);
    ValueShift("-", s, |s|, base);
    assert |"-"| == 1;
  }

  lemma Negation(n: int)
    requires LONG_MIN <= n < 0
    ensures Signed(-n) == if n == LONG_MIN then n else -n
  {
  }

  lemma PrintedNegative(n: int)
    requires LONG_MIN < n < 0
    ensures Denoted(Printed(n, 10), 10) == n && EndOf(Printed(n, 10), 10) == |Printed(n, 10)|
  {
    Negation(n);
    var m := -n;
    RenderedValue(m, 10);
    SignedDenotes(Rendered(m, 10), 10);
  }

  lemma PrintedIsLow(n: int, base: int)
    requires LONG_MIN <= n < 0 && 2 <= base <= 36 && (base != 10 || n == LONG_MIN)
    ensures Low(Printed(n, base))
  {
    Negation(n);
    RenderedLow(n, base);
  }

  lemma PrintedLow(n: int, base: int)
    requires LONG_MIN <= n < 0 && 2 <= base <= 36 && (base != 10 || n == LONG_MIN)
    ensures Denoted(Printed(n, base), base) == 0
  {
    PrintedIsLow(n, base);
    LowDenotesZero(Printed(n, base), base);
  }

  /** strtol(ltoa(n, b), b) is n, and stops at the end, exactly when n is not negative, or
      the base is 10 and n is not LONG_MIN. */
  lemma RoundTrip(n: int, base: int)
    requires LONG_MIN <= n <= LONG_MAX && 2 <= base <= 36
    ensures var p := Printed(n, base);
            && (Clamp(Denoted(p, base), LONG_MIN, LONG_MAX) == n <==> n >= 0 || (base == 10 && n != LONG_MIN))
            && (Clamp(Denoted(p, base), LONG_MIN, LONG_MAX) == n ==> EndOf(p, base) == |p|)
  {
    if n >= 0 {
      PrintedPositive(n, base);
    } else if base == 10 && n != LONG_MIN {
      PrintedNegative(n);
    } else {
      PrintedLow(n, base);
    }
  }

  /** The numbers that do not come back: minus one in base 2 prints as a slash. */
  lemma MinusOneLost()
    ensures Printed(-1, 2) == "/" && Denoted(Printed(-1, 2), 2) == 0
  {
    PrintedLow(-1, 2);
    QuotFacts(-1, 2);
    assert Rendered(0, 2) == "";
  }
}
