/**
 NUL-terminated strings and the conversions of the C library the option code
 relies on (C locale, 64-bit unsigned long).
 */
module CStrings {
  const NUL := '\0'
  const ULONG_MAX := 0xFFFF_FFFF_FFFF_FFFF

  predicate NulFree(s: string)
  {
    NUL !in s
  }

  /** `strlen` of the string that starts at `i`; a buffer ends like a string. */
  function StrLen(s: string, i: nat): (n: nat)
    requires i <= |s|
    ensures i + n <= |s|
    ensures NulFree(s[i..i + n])
    ensures i + n < |s| ==> s[i + n] == NUL
    decreases |s| - i
  {
    if i == |s| || s[i] == NUL then 0
    else
      var n := 1 + StrLen(s, i + 1);
      assert s[i..i + n] == [s[i]] + s[i + 1..i + n];
      n
  }

  lemma {:induction false} StrLenAt(a: string, t: string, b: string)
    requires NulFree(t)
    ensures |a| <= |a + t + [NUL] + b| && StrLen(a + t + [NUL] + b, |a|) == |t|
    decreases |t|
  {
    var s := a + t + [NUL] + b;
    if t == [] {
      assert s[|a|] == NUL;
    } else {
      assert s == (a + [t[0]]) + t[1..] + [NUL] + b;
      assert s[|a|] == t[0];
      StrLenAt(a + [t[0]], t[1..], b);
    }
  }

  /** Where a string ends is decided by the first terminator, or the end of the buffer. */
  lemma {:induction false} StrLenIs(s: string, i: nat, n: nat)
    requires i + n <= |s| && NulFree(s[i..i + n]) && (i + n < |s| ==> s[i + n] == NUL)
    ensures StrLen(s, i) == n
    decreases n
  {
    if n > 0 {
      assert s[i..i + n][0] == s[i];
      assert s[i + 1..i + n] == s[i..i + n][1..];
      StrLenIs(s, i + 1, n - 1);
    }
  }

  function Lower(c: char): (r: char)
  {
    if 'A' <= c <= 'Z' then ((c as int) + 32) as char else c
  }

  /** `strcasecmp(a, b) == 0`. */
  predicate EqualNoCase(a: string, b: string)
  {
    |a| == |b| && forall i :: 0 <= i < |a| ==> Lower(a[i]) == Lower(b[i])
  }

  /** The letter itself or its capital, 32 codes below. */
  predicate SameLetter(c: char, letter: char)
  {
    c == letter || ('a' <= letter <= 'z' && c as int == letter as int - 32)
  }

  /** A spelling of a word in small letters, in any mixture of cases. */
  predicate Spells(s: string, word: string)
  {
    |s| == |word| && forall i :: 0 <= i < |s| ==> SameLetter(s[i], word[i])
  }

  predicate NoCapitals(word: string)
  {
    forall i :: 0 <= i < |word| ==> !('A' <= word[i] <= 'Z')
  }

  lemma LetterFolds(c: char, letter: char)
    requires !('A' <= letter <= 'Z')
    ensures Lower(c) == Lower(letter) <==> SameLetter(c, letter)
  {
  }

  /** The comparison accepts exactly the spellings of a word. */
  lemma EqualNoCaseIff(s: string, word: string)
    requires NoCapitals(word)
    ensures EqualNoCase(s, word) <==> Spells(s, word)
  {
    hide Lower, SameLetter;
    if |s| == |word| {
      forall i | 0 <= i < |s| ensures Lower(s[i]) == Lower(word[i]) <==> SameLetter(s[i], word[i]) {
        LetterFolds(s[i], word[i]);
      }
    }
  }

  predicate IsSpace(c: char)
  {
    c in " \t\n\r" || c == (11 as char) || c == (12 as char)
  }

  predicate IsDigit(c: char)
  {
    '0' <= c <= '9'
  }

  function DigitValue(c: char): (d: nat)
    requires IsDigit(c)
    ensures d <= 9
  {
    c as int - '0' as int
  }

  function SkipSpace(s: string): (r: string)
  {
    if s != "" && IsSpace(s[0]) then SkipSpace(s[1..]) else s
  }

  /** A value without the blanks and plus signs in front of it. */
  function SkipSpaceAndPlus(s: string): (r: string)
  {
    if s != "" && (IsSpace(s[0]) || s[0] == '+') then SkipSpaceAndPlus(s[1..]) else s
  }

  lemma {:induction false} StripIsSuffix(s: string)
    ensures var r := SkipSpaceAndPlus(s);
            |r| <= |s| && r == s[|s| - |r|..]
  {
    if s != "" && (IsSpace(s[0]) || s[0] == '+') {
      StripIsSuffix(s[1..]);
    }
  }

  predicate AllDigits(s: string)
  {
    forall i :: 0 <= i < |s| ==> IsDigit(s[i])
  }

  function DigitCount(s: string): (n: nat)
    ensures n <= |s| && AllDigits(s[..n])
  {
    if s == "" || !IsDigit(s[0]) then 0
    else
      var n := 1 + DigitCount(s[1..]);
      assert s[..n] == [s[0]] + s[1..][..n - 1];
      n
  }

  /** Value of a string of decimal digits. */
  function Decimal(s: string): (v: nat)
    requires AllDigits(s)
  {
    if s == "" then 0 else 10 * Decimal(s[..|s| - 1]) + DigitValue(s[|s| - 1])
  }

  /** The result of `strtoul(s, &rest, 10)`, and whether it set ERANGE. */
  datatype Parsed = Parsed(value: nat, rest: string, overflow: bool)

  function Strtoul(s: string): (p: Parsed)
  {
    var t := SkipSpace(s);
    var neg := t != "" && t[0] == '-';
    var u := if t != "" && (t[0] == '-' || t[0] == '+') then t[1..] else t;
    var n := DigitCount(u);
    if n == 0 then Parsed(0, s, false)
    else
      var v := Decimal(u[..n]);
      if v > ULONG_MAX then Parsed(ULONG_MAX, u[n..], true)
      else Parsed(if neg then (ULONG_MAX + 1 - v) % (ULONG_MAX + 1) else v, u[n..], false)
  }

  /** `%hu`, `%hhu` and `%zu`. */
  function Print(n: nat): (s: string)
    ensures s != "" && AllDigits(s)
  {
    var d := [('0' as int + n % 10) as char];
    if n < 10 then d else Print(n / 10) + d
  }

  lemma {:induction false} DecimalOfPrint(n: nat)
    ensures Decimal(Print(n)) == n
  {
    var d := [('0' as int + n % 10) as char];
    if n < 10 {
      assert d[..0] == "";
      assert Decimal(d[..0]) == 0;
    } else {
      DecimalOfPrint(n / 10);
      assert Print(n)[..|Print(n)| - 1] == Print(n / 10);
    }
  }

  lemma {:induction false} DigitCountOfDigits(s: string)
    requires AllDigits(s)
    ensures DigitCount(s) == |s|
  {
    if s != "" {
      DigitCountOfDigits(s[1..]);
    }
  }

  /** Printed numbers are read back whole. */
  lemma PrintRoundTrip(n: nat)
    requires n <= ULONG_MAX
    ensures Strtoul(Print(n)) == Parsed(n, "", false)
    ensures SkipSpaceAndPlus(Print(n)) == Print(n)
    ensures NulFree(Print(n))
  {
    var s := Print(n);
    assert IsDigit(s[0]);
    DecimalOfPrint(n);
    DigitCountOfDigits(s);
    assert s[..|s|] == s;
    assert forall i :: 0 <= i < |s| ==> s[i] != NUL;
  }

  /** A leading blank changes neither the value nor what is left unread. */
  lemma BlankIgnored(s: string)
    requires s != "" && IsSpace(s[0]) && Strtoul(s).rest == ""
    ensures s[1..] != "" && Strtoul(s[1..]) == Strtoul(s)
  {
    hide Decimal;
    assert SkipSpace(s) == SkipSpace(s[1..]);
  }

  /** A number that is read whole leaves something behind its blanks and plus signs. */
  lemma {:induction false} StripLeavesDigits(s: string)
    requires s != "" && Strtoul(s).rest == ""
    ensures SkipSpaceAndPlus(s) != ""
    decreases |s|
  {
    if IsSpace(s[0]) {
      BlankIgnored(s);
      StripLeavesDigits(s[1..]);
    } else if s[0] == '+' {
      var u := s[1..];
      assert SkipSpace(s) == s;
      if DigitCount(u) > 0 {
        assert SkipSpaceAndPlus(s) == SkipSpaceAndPlus(u) == u;
      }
    }
  }

  /** Dropping blanks and plus signs in front of a number that `strtoul` reads
      whole does not change its value. */
  lemma {:induction false} StripKeepsValue(s: string)
    requires s != "" && Strtoul(s).rest == ""
    ensures Strtoul(SkipSpaceAndPlus(s)) == Strtoul(s)
    decreases |s|
  {
    if IsSpace(s[0]) {
      BlankIgnored(s);
      StripKeepsValue(s[1..]);
    } else if s[0] == '+' {
      var u := s[1..];
      assert SkipSpace(s) == s;
      if DigitCount(u) > 0 {
        assert SkipSpaceAndPlus(s) == SkipSpaceAndPlus(u) == u;
        assert SkipSpace(u) == u;
      }
    }
  }

  // ------------------------------------------------------- what is a number

  /** Blank, tab, line feed, vertical tab, form feed and carriage return. */
  predicate Blanks(s: string)
  {
    forall i :: 0 <= i < |s| ==> s[i] as int == 32 || 9 <= s[i] as int <= 13
  }

  lemma {:induction false} BlanksSkipped(s: string, t: string)
    requires Blanks(s) && (t == "" || !(t[0] as int == 32 || 9 <= t[0] as int <= 13))
    ensures SkipSpace(s + t) == t
    decreases |s|
  {
    if s == "" {
      assert s + t == t;
    } else {
      assert (s + t)[1..] == s[1..] + t;
      BlanksSkipped(s[1..], t);
    }
  }

  lemma {:induction false} DigitsCounted(d: string, rest: string)
    requires AllDigits(d) && (rest == "" || !IsDigit(rest[0]))
    ensures DigitCount(d + rest) == |d|
    decreases |d|
  {
    if d == "" {
      assert d + rest == rest;
    } else {
      assert (d + rest)[1..] == d[1..] + rest;
      DigitsCounted(d[1..], rest);
    }
  }

  /** `strtoul` reads blanks, a sign and decimal digits, and nothing else: a
      minus negates modulo 2^64, and what is too large saturates. */
  lemma NumbersRead(blanks: string, sign: string, n: nat, rest: string)
    requires Blanks(blanks) && (sign == "" || sign == "+" || sign == "-")
    requires rest == "" || !('0' <= rest[0] <= '9')
    ensures var p := Strtoul(blanks + (sign + (Print(n) + rest)));
            && p.rest == rest
            && (p.overflow <==> n > 0xFFFF_FFFF_FFFF_FFFF)
            && p.value == (if n > 0xFFFF_FFFF_FFFF_FFFF then 0xFFFF_FFFF_FFFF_FFFF
                           else if sign == "-" && n > 0 then 0x1_0000_0000_0000_0000 - n
                           else n)
  {
    var d := Print(n);
    var u := d + rest;
    var t := sign + u;
    assert IsDigit(u[0]) by { assert u[0] == d[0]; }
    BlanksSkipped(blanks, t);
    DigitsCounted(d, rest);
    assert u[..|d|] == d && u[|d|..] == rest;
    DecimalOfPrint(n);
    assert sign != "" ==> t[1..] == u;
    assert sign == "" ==> t == u;
    hide Decimal, DigitCount, SkipSpace, Print;
  }

  /** Anything else is no number at all. */
  lemma NoNumberRead(s: string)
    requires s == "" || !(s[0] == '+' || s[0] == '-' || '0' <= s[0] <= '9' || s[0] as int == 32 || 9 <= s[0] as int <= 13)
    ensures Strtoul(s) == Parsed(0, s, false)
  {
    assert Blanks("") && "" + s == s;
    BlanksSkipped("", s);
  }

  /** What is stripped in front of a value: blanks and plus signs, all of them. */
  lemma {:induction false} StrippedAway(front: string, t: string)
    requires forall i :: 0 <= i < |front| ==> front[i] == '+' || front[i] as int == 32 || 9 <= front[i] as int <= 13
    requires t == "" || !(t[0] == '+' || t[0] as int == 32 || 9 <= t[0] as int <= 13)
    ensures SkipSpaceAndPlus(front + t) == t
    decreases |front|
  {
    if front == "" {
      assert front + t == t;
    } else {
      assert (front + t)[1..] == front[1..] + t;
      StrippedAway(front[1..], t);
    }
  }
}
