/** What strtol reads, told by the parts of the string (section 7.20.1.4 of ISO/IEC
    9899:1999): white space, a sign, a prefix, digits, and the rest. */
module StrtolReads {
  import opened Ltoa
  import opened Strtol

  /** Character `c` is the digit `v`, a letter of either case from ten on (in ASCII). */
  predicate IsDigit(c: char, v: int)
  {
    if 0 <= v < 10 then c as int == 48 + v
    else 10 <= v < 36 && (c as int == 97 + v - 10 || c as int == 65 + v - 10)
  }

  predicate AreDigits(chars: string, digits: seq<int>, base: int)
  {
    |chars| == |digits| && forall i :: 0 <= i < |digits| ==> IsDigit(chars[i], digits[i]) && digits[i] < base
  }

  function ValueOf(digits: seq<int>, base: int): int
  {
    if digits == [] then 0 else ValueOf(digits[..|digits| - 1], base) * base + digits[|digits| - 1]
  }

  /** The rest does not go on with a digit. */
  ghost predicate Ends(rest: string, base: int)
  {
    rest == "" || forall v: int :: v < base ==> !IsDigit(rest[0], v)
  }

  predicate White(ws: string)
  {
    forall i :: 0 <= i < |ws| ==> ws[i] == ' ' || ws[i] == '\t' || ws[i] == '\n'
  }

  /** The prefix, and the base the digits behind it are in: 0x stands for 16 and 0b for 2,
      where that base is asked for or none is; without a prefix base 0 is 8 after a 0 and 10
      otherwise, and `body` must not look like one. */
  predicate PrefixIs(pre: string, body: string, base: int, b: int)
  {
    if pre == "0x" || pre == "0X" then (base == 0 || base == 16) && b == 16
    else if pre == "0b" || pre == "0B" then (base == 0 || base == 2) && b == 2
    else
      && pre == "" && body != "" && b == (if base != 0 then base else if body[0] == '0' then 8 else 10)
      && !(body[0] == '0' && |body| > 1 && (base == 0 || base == 16) && (body[1] == 'x' || body[1] == 'X'))
      && !(body[0] == '0' && |body| > 1 && (base == 0 || base == 2) && (body[1] == 'b' || body[1] == 'B'))
  }

  lemma DigitIs(c: char, v: int)
    ensures IsDigit(c, v) <==> Digit(c) == v && v < 36
  {
  }

  lemma {:induction false} SpaceSkipped(s: string, i: nat, n: nat)
    requires i <= n <= |s| && White(s[i..n]) && (n < |s| ==> !IsSpace(s[n]))
    ensures SkipSpace(s, i) == n
    decreases n - i
  {
    if i < n {
      assert s[i] == s[i..n][0] && s[i + 1..n] == s[i..n][1..];
      SpaceSkipped(s, i + 1, n);
    }
  }

  lemma {:induction false} DigitsScanned(s: string, lo: nat, i: nat, digits: seq<int>, base: int)
    requires 2 <= base <= 36 && lo <= i <= lo + |digits| <= |s| && AreDigits(s[lo..lo + |digits|], digits, base)
    requires Ends(s[lo + |digits|..], base)
    ensures DigitsEnd(s, i, base) == lo + |digits|
    decreases lo + |digits| - i
  {
    var hi := lo + |digits|;
    if i < hi {
      assert s[i] == s[lo..hi][i - lo];
      DigitIs(s[i], digits[i - lo]);
      DigitsScanned(s, lo, i + 1, digits, base);
    } else if hi < |s| {
      assert s[hi..][0] == s[hi];
      DigitIs(s[hi], Digit(s[hi]));
    }
  }

  lemma {:induction false} DigitsValue(s: string, lo: nat, digits: seq<int>, base: int)
    requires 2 <= base <= 36 && lo + |digits| <= |s| && AreDigits(s[lo..lo + |digits|], digits, base)
    ensures Value(s, lo, lo + |digits|, base) == ValueOf(digits, base)
    decreases |digits|
  {
    var hi := lo + |digits|;
    if digits != [] {
      var front := digits[..|digits| - 1];
      assert s[lo..hi][..|front|] == s[lo..hi - 1] && s[hi - 1] == s[lo..hi][|front|];
      DigitIs(s[hi - 1], digits[|front|]);
      DigitsValue(s, lo, front, base);
    }
  }

  lemma StartsAt(s: string, ws: string, sign: string, body: string, pre: string, chars: string, v: int)
    requires White(ws) && (sign == "" || sign == "+" || sign == "-") && s == ws + sign + body
    requires (pre == "" || pre[0] == '0') && pre + chars <= body && chars != "" && IsDigit(chars[0], v)
    ensures SkipSpace(s, 0) == |ws| && AfterSign(s) == |ws| + |sign| && (At(s, SkipSpace(s, 0)) == '-' <==> sign == "-")
  {
    var c := (sign + body)[0];
    assert s[0..|ws|] == ws && s[|ws|] == c;
    assert body[0] == (pre + chars)[0] && (sign != "" ==> c == sign[0]) && (sign == "" ==> c == body[0]);
    SpaceSkipped(s, 0, |ws|);
  }

  lemma PrefixFound(s: string, j: nat, pre: string, body: string, base: int, b: int)
    requires BaseOk(base) && j <= |s| && s[j..] == pre + body && PrefixIs(pre, body, base, b)
    ensures Prefix(s, j, base) == (b, j + |pre|)
  {
    var t := pre + body;
    assert |t| > 0 ==> s[j] == t[0];
    assert |t| > 1 ==> s[j + 1] == t[1];
  }

  lemma Cut(ws: string, sign: string, pre: string, chars: string, rest: string)
    ensures var s := ws + sign + pre + chars + rest;
            var j := |ws| + |sign|;
            && s == ws + sign + (pre + (chars + rest)) && s[j..] == pre + (chars + rest)
            && s[j + |pre|..j + |pre| + |chars|] == chars && s[j + |pre| + |chars|..] == rest
  {
  }

  /** A string of these parts: the value is that of the digits, with the sign, and the end is
      behind them. */
  lemma Reads(ws: string, sign: string, pre: string, chars: string, rest: string, base: int, b: int, digits: seq<int>)
    requires BaseOk(base) && White(ws) && (sign == "" || sign == "+" || sign == "-")
    requires digits != [] && AreDigits(chars, digits, b) && Ends(rest, b) && PrefixIs(pre, chars + rest, base, b)
    ensures var s := ws + sign + pre + chars + rest;
            && Denoted(s, base) == (if sign == "-" then -ValueOf(digits, b) else ValueOf(digits, b))
            && EndOf(s, base) == |ws| + |sign| + |pre| + |chars|
  {
    hide Ends, White, SkipSpace, DigitsEnd, Value, ValueOf, AfterSign, Prefix, At, Scan;
    var s := ws + sign + pre + chars + rest;
    var body := pre + (chars + rest);
    var j := |ws| + |sign|;
    var lo := j + |pre|;
    Cut(ws, sign, pre, chars, rest);
    StartsAt(s, ws, sign, body, pre, chars, digits[0]);
    PrefixFound(s, j, pre, chars + rest, base, b);
    DigitsScanned(s, lo, lo, digits, b);
    DigitsValue(s, lo, digits, b);
    ScanIs(s, base, b, j, lo, lo + |chars|);
  }

  lemma ScanIs(s: string, base: int, b: int, j: nat, lo: nat, hi: nat)
    requires BaseOk(base) && AfterSign(s) == j && Prefix(s, j, base) == (b, lo) && lo <= |s| && b <= 36
    requires DigitsEnd(s, lo, b) == hi
    ensures Scan(s, base) == Number(At(s, SkipSpace(s, 0)) == '-', b, lo, hi)
  {
  }

  /** Under base 0 a leading 0 makes the digits octal, 0x hexadecimal, and else they are
      decimal; letters count in either case. */
  lemma Examples()
    ensures Denoted("017", 0) == 15 && Denoted("0x1F", 0) == 31 && Denoted("17", 0) == 17 && Denoted("0b11", 0) == 3
    ensures Denoted("\t -zZ", 36) == -1295 && EndOf("\t -zZ", 36) == 5
  {
    hide Denoted, EndOf, ValueOf;
    Example("", "", "", "017", "017", 0, 8, [0, 1, 7]);
    Three(0, 1, 7, 8);
    Example("", "", "0x", "1F", "0x1F", 0, 16, [1, 15]);
    Two(1, 15, 16);
    Example("", "", "", "17", "17", 0, 10, [1, 7]);
    Two(1, 7, 10);
    Example("", "", "0b", "11", "0b11", 0, 2, [1, 1]);
    Two(1, 1, 2);
    Example("\t ", "-", "", "zZ", "\t -zZ", 36, 36, [35, 35]);
    Two(35, 35, 36);
  }

  lemma Example(ws: string, sign: string, pre: string, chars: string, s: string, base: int, b: int, digits: seq<int>)
    requires BaseOk(base) && White(ws) && (sign == "" || sign == "+" || sign == "-")
    requires digits != [] && AreDigits(chars, digits, b) && PrefixIs(pre, chars, base, b)
    requires s == ws + sign + pre + chars
    ensures Denoted(s, base) == if sign == "-" then -ValueOf(digits, b) else ValueOf(digits, b)
    ensures EndOf(s, base) == |s|
  {
    hide Denoted, EndOf, ValueOf;
    assert chars + "" == chars && s + "" == s;
    Reads(ws, sign, pre, chars, "", base, b, digits);
  }

  lemma Two(a: int, b: int, base: int)
    ensures ValueOf([a, b], base) == a * base + b
  {
    assert [a, b][..1] == [a] && [a][..0] == [];
    assert ValueOf([a], base) == 0 * base + a;
  }

  lemma Three(a: int, b: int, c: int, base: int)
    ensures ValueOf([a, b, c], base) == (a * base + b) * base + c
  {
    Two(a, b, base);
    assert [a, b, c][..2] == [a, b];
  }

  /** ltoa prints digits as numerals and lower-case letters, and a minus sign in base 10. */
  lemma PrintsDigits(n: int, base: int)
    requires 2 <= base <= 36
    ensures forall r :: 0 <= r < base ==> IsDigit(RemChar(r), r) && !('A' <= RemChar(r) <= 'Z')
    ensures n < 0 && base == 10 ==> Printed(n, base)[..1] == "-"
    ensures Printed(0, base) == "0" && Printed(255, 16) == "ff"
  {
    assert Quot(255, 16) == 15 && Quot(15, 16) == 0;
    assert Rendered(0, 16) == "";
    assert Rendered(15, 16) == "" + [RemChar(15)];
    assert Rendered(255, 16) == Rendered(15, 16) + [RemChar(15)];
  }
}
