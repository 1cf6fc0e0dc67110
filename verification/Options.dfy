/**
 The option part of tftp.c: the recognised options, the printer of a list of
 options and the parser that walks one.
 */
module Options {
  import opened CStrings

  const BLKSIZE := 0
  const TIMEOUT := 1
  const TSIZE := 2
  const WINDOWSIZE := 3
  const READ_TYPE := 4
  const TOTAL := 5
  const NAMES: seq<string> := ["blksize", "timeout", "tsize", "windowsize", "type"]

  /** `struct tftp_option`; the value of an inactive option is never read. */
  datatype Opt = Inactive | Active(value: string)

  const NONE: seq<Opt> := [Inactive, Inactive, Inactive, Inactive, Inactive]

  type Pair = (string, string)

  // --------------------------------------------------------------- values

  /** Read whole by `strtoul` and within the range the option's RFC gives it. */
  predicate NumberWithin(val: string, lo: nat, hi: nat)
  {
    val != "" && Strtoul(val).rest == "" && lo <= Strtoul(val).value <= hi
  }

  predicate ValidValue(o: nat, val: string)
  {
    if o == BLKSIZE then NumberWithin(val, 8, 65464)
    else if o == TIMEOUT then NumberWithin(val, 1, 255)
    else if o == TSIZE then val == "0" || (val != "" && Strtoul(val).rest == "" && !Strtoul(val).overflow)
    else if o == WINDOWSIZE then NumberWithin(val, 1, 65535)
    else EqualNoCase(val, "directory")
  }

  /** A listing is asked for by one word only, in any mixture of cases. */
  lemma ValidTypeIff(val: string)
    ensures ValidValue(READ_TYPE, val) <==> Spells(val, "directory")
  {
    hide EqualNoCase, Spells;
    EqualNoCaseIff(val, "directory");
  }

  lemma PrintsZero(n: nat)
    ensures Print(n) == "0" <==> n == 0
  {
    DecimalOfPrint(n);
    assert "0"[..0] == "";
    assert Decimal("") == 0;
    assert Decimal("0") == 0;
  }

  /** The ranges of RFC 2348, RFC 2349 and RFC 7440, for numbers as they are printed. */
  lemma ValidNumberIff(n: nat)
    ensures ValidValue(BLKSIZE, Print(n)) <==> 8 <= n <= 65464
    ensures ValidValue(TIMEOUT, Print(n)) <==> 1 <= n <= 255
    ensures ValidValue(WINDOWSIZE, Print(n)) <==> 1 <= n <= 65535
    ensures ValidValue(TSIZE, Print(n)) <==> n <= 0xFFFF_FFFF_FFFF_FFFF
  {
    hide Strtoul;
    NumbersRead("", "", n, "");
    assert "" + ("" + (Print(n) + "")) == Print(n);
    PrintsZero(n);
  }

  /** The value recorded for a valid option; the size "0" of a read request is
      replaced by an empty buffer that the server prints the size into. */
  function StoredValue(o: nat, val: string): (r: string)
  {
    if o == READ_TYPE then val
    else if o == TSIZE && val == "0" then ""
    else SkipSpaceAndPlus(val)
  }

  /** Of a number the blanks and plus signs in front of it are not recorded. */
  lemma StoredIsStripped(o: nat, front: string, n: nat)
    requires o < READ_TYPE && (o == TSIZE ==> front != "" || n != 0)
    requires forall i :: 0 <= i < |front| ==> front[i] == '+' || front[i] as int == 32 || 9 <= front[i] as int <= 13
    ensures StoredValue(o, front + Print(n)) == Print(n)
  {
    StrippedAway(front, Print(n));
    PrintsZero(n);
    assert IsDigit(Print(n)[0]);
    if front == "" {
      assert front + Print(n) == Print(n);
    } else {
      assert |front + Print(n)| >= 2;
    }
    hide SkipSpaceAndPlus, Print;
  }

  /** What `strtoul` later reads from the recorded value is in range. */
  lemma StoredNumberWithin(val: string, lo: nat, hi: nat)
    requires NumberWithin(val, lo, hi)
    ensures Strtoul(SkipSpaceAndPlus(val)) == Strtoul(val)
    ensures Strtoul(SkipSpaceAndPlus(val)).value == Strtoul(val).value && lo <= Strtoul(val).value <= hi
  {
    StripKeepsValue(val);
  }

  // ---------------------------------------------------------------- parser

  /** The string at `i` of a buffer that is followed by zeros. */
  function Token(s: string, i: nat): (t: string)
    ensures NulFree(t)
  {
    if i > |s| then "" else s[i..i + StrLen(s, i)]
  }

  /** The name/value pairs of the walk, which ends at the last character. */
  function DecodePairs(s: string, i: nat): (ps: seq<Pair>)
    decreases |s| - i
  {
    if i + 1 >= |s| then []
    else
      var v := i + |Token(s, i)| + 1;
      [(Token(s, i), Token(s, v))] + DecodePairs(s, v + |Token(s, v)| + 1)
  }

  /** The recognised option with that name, TOTAL if there is none. */
  function FindName(name: string, o: nat): (r: nat)
    requires o <= TOTAL
    ensures o <= r <= TOTAL
    ensures r < TOTAL ==> EqualNoCase(name, NAMES[r])
    ensures forall i :: o <= i < r ==> !EqualNoCase(name, NAMES[i])
    decreases TOTAL - o
  {
    if o == TOTAL || EqualNoCase(name, NAMES[o]) then o else FindName(name, o + 1)
  }

  function ParsePair(opts: seq<Opt>, p: Pair): (r: seq<Opt>)
    requires |opts| == TOTAL
    ensures |r| == TOTAL
  {
    var o := FindName(p.0, 0);
    if o < TOTAL && ValidValue(o, p.1) then opts[o := Active(StoredValue(o, p.1))] else opts
  }

  function ParsePairs(opts: seq<Opt>, ps: seq<Pair>): (r: seq<Opt>)
    requires |opts| == TOTAL
    ensures |r| == TOTAL
    decreases |ps|
  {
    if ps == [] then opts else ParsePairs(ParsePair(opts, ps[0]), ps[1..])
  }

  /** The pair names option `o`, in any mixture of cases, and has a value that is
      valid for it. */
  predicate Occurs(p: Pair, o: nat)
    requires o < TOTAL
  {
    Spells(p.0, NAMES[o]) && ValidValue(o, p.1)
  }

  lemma NamesAreSmall(o: nat)
    requires o < TOTAL
    ensures NoCapitals(NAMES[o]) && NoCapitals("directory")
  {
  }

  lemma NamesDiffer(name: string, a: nat, b: nat)
    requires a < TOTAL && b < TOTAL && EqualNoCase(name, NAMES[a]) && EqualNoCase(name, NAMES[b])
    ensures a == b
  {
    assert |NAMES[a]| == |NAMES[b]|;
    assert Lower(NAMES[a][0]) == Lower(NAMES[b][0]);
  }

  lemma ParsePairAt(opts: seq<Opt>, p: Pair, o: nat)
    requires |opts| == TOTAL && o < TOTAL
    ensures ParsePair(opts, p)[o] == if Occurs(p, o) then Active(StoredValue(o, p.1)) else opts[o]
  {
    hide ValidValue, StoredValue, Spells;
    var f := FindName(p.0, 0);
    NamesAreSmall(o);
    EqualNoCaseIff(p.0, NAMES[o]);
    if EqualNoCase(p.0, NAMES[o]) {
      NamesDiffer(p.0, o, f);
    }
    hide EqualNoCase;
  }

  lemma {:induction false} ParseLast(opts: seq<Opt>, ps: seq<Pair>, p: Pair)
    requires |opts| == TOTAL
    ensures ParsePairs(opts, ps + [p]) == ParsePair(ParsePairs(opts, ps), p)
    decreases |ps|
  {
    hide ParsePair;
    if ps == [] {
      assert (ps + [p])[1..] == [];
    } else {
      assert (ps + [p])[1..] == ps[1..] + [p];
      ParseLast(ParsePair(opts, ps[0]), ps[1..], p);
    }
  }

  /** Index of the last valid occurrence of `o`, or -1. */
  function LastOccurrence(ps: seq<Pair>, o: nat): (i: int)
    requires o < TOTAL
    ensures -1 <= i < |ps|
    ensures i >= 0 ==> Occurs(ps[i], o)
    ensures forall j :: i < j < |ps| ==> !Occurs(ps[j], o)
  {
    if ps == [] then -1
    else if Occurs(ps[|ps| - 1], o) then |ps| - 1
    else LastOccurrence(ps[..|ps| - 1], o)
  }

  /** An option that was inactive ends active if and only if some occurrence,
      in any mixture of cases, has a valid value; its value is that of the last
      valid occurrence, and everything else changes nothing. */
  lemma {:induction false} ParsingSound(opts: seq<Opt>, ps: seq<Pair>, o: nat)
    requires |opts| == TOTAL && o < TOTAL
    ensures ParsePairs(opts, ps)[o] ==
              if exists i :: 0 <= i < |ps| && Occurs(ps[i], o)
              then Active(StoredValue(o, ps[LastOccurrence(ps, o)].1))
              else opts[o]
  {
    hide Occurs, StoredValue;
    if ps != [] {
      var before := ps[..|ps| - 1];
      assert ps == before + [ps[|ps| - 1]];
      ParsingSound(opts, before, o);
      ParseLast(opts, before, ps[|ps| - 1]);
      ParsePairAt(ParsePairs(opts, before), ps[|ps| - 1], o);
      hide ParsePairs, ParsePair;
      if Occurs(ps[|ps| - 1], o) {
      } else if exists i :: 0 <= i < |before| && Occurs(before[i], o) {
        var i :| 0 <= i < |before| && Occurs(before[i], o);
        assert Occurs(ps[i], o);
      } else {
        assert forall i :: 0 <= i < |ps| ==> !Occurs(ps[i], o);
      }
    }
  }

  // --------------------------------------------------------------- printer

  function EncodePair(p: Pair): (s: string)
  {
    p.0 + [NUL] + p.1 + [NUL]
  }

  function EncodePairs(ps: seq<Pair>): (s: string)
  {
    if ps == [] then "" else EncodePair(ps[0]) + EncodePairs(ps[1..])
  }

  predicate NulFreePairs(ps: seq<Pair>)
  {
    forall i :: 0 <= i < |ps| ==> NulFree(ps[i].0) && NulFree(ps[i].1)
  }

  /** The active options among the first `n`, in the order of their numbers. */
  function ActivePairs(opts: seq<Opt>, n: nat): (ps: seq<Pair>)
    requires n <= |opts| == TOTAL
  {
    if n == 0 then []
    else ActivePairs(opts, n - 1) + if opts[n - 1].Active? then [(NAMES[n - 1], opts[n - 1].value)] else []
  }

  lemma TokenAt(a: string, t: string, b: string)
    requires NulFree(t)
    ensures Token(a + t + [NUL] + b, |a|) == t
  {
    StrLenAt(a, t, b);
    assert (a + t + [NUL] + b)[|a|..|a| + |t|] == t;
  }

  lemma TokensOfPair(before: string, name: string, val: string, rest: string)
    requires NulFree(name) && NulFree(val)
    ensures var s := before + EncodePair((name, val)) + rest;
            Token(s, |before|) == name && Token(s, |before| + |name| + 1) == val
  {
    hide Token, NulFree;
    var s := before + EncodePair((name, val)) + rest;
    assert s == before + name + [NUL] + (val + [NUL] + rest);
    TokenAt(before, name, val + [NUL] + rest);
    assert s == (before + name + [NUL]) + val + [NUL] + rest;
    TokenAt(before + name + [NUL], val, rest);
    assert |before + name + [NUL]| == |before| + |name| + 1;
  }

  lemma DecodeFirst(before: string, name: string, val: string, rest: string)
    requires NulFree(name) && NulFree(val)
    ensures var s, next := before + EncodePair((name, val)) + rest, before + EncodePair((name, val));
            DecodePairs(s, |before|) == [(name, val)] + DecodePairs(s, |next|)
  {
    hide Token, NulFree, StrLen;
    var s := before + EncodePair((name, val)) + rest;
    TokensOfPair(before, name, val, rest);
    var i, v := |before|, |before| + |name| + 1;
    assert v + |val| + 1 == |before + EncodePair((name, val))| <= |s|;
    assert DecodePairs(s, i) == [(name, val)] + DecodePairs(s, v + |val| + 1);
  }

  /** What was printed is what the parser's walk meets. */
  lemma {:induction false} DecodeEncode(before: string, ps: seq<Pair>)
    requires NulFreePairs(ps)
    ensures DecodePairs(before + EncodePairs(ps), |before|) == ps
    decreases |ps|
  {
    hide Token, EncodePair, NulFree;
    if ps != [] {
      var rest, next := EncodePairs(ps[1..]), before + EncodePair(ps[0]);
      assert before + EncodePairs(ps) == next + rest;
      DecodeFirst(before, ps[0].0, ps[0].1, rest);
      DecodeEncode(next, ps[1..]);
      hide EncodePairs;
    }
  }

  lemma {:induction false} EncodeAppend(ps: seq<Pair>, p: Pair)
    ensures EncodePairs(ps + [p]) == EncodePairs(ps) + EncodePair(p)
  {
    hide EncodePair;
    if ps == [] {
      assert ([] + [p])[1..] == [];
    } else {
      assert (ps + [p])[1..] == ps[1..] + [p];
      EncodeAppend(ps[1..], p);
    }
  }

  /** Printing the options up to `n` from those before it. */
  lemma EncodeNext(opts: seq<Opt>, n: nat)
    requires n < |opts| == TOTAL
    ensures EncodePairs(ActivePairs(opts, n + 1)) ==
              EncodePairs(ActivePairs(opts, n))
              + if opts[n].Active? then EncodePair((NAMES[n], opts[n].value)) else ""
  {
    if opts[n].Active? {
      EncodeAppend(ActivePairs(opts, n), (NAMES[n], opts[n].value));
    } else {
      assert ActivePairs(opts, n + 1) == ActivePairs(opts, n);
    }
  }

  lemma {:induction false} EncodeGrows(opts: seq<Opt>, n: nat, m: nat)
    requires n <= m <= |opts| == TOTAL
    ensures |EncodePairs(ActivePairs(opts, n))| <= |EncodePairs(ActivePairs(opts, m))|
    decreases m
  {
    if n < m {
      EncodeGrows(opts, n, m - 1);
      EncodeNext(opts, m - 1);
      hide EncodePairs, ActivePairs;
    }
  }

  lemma CopiedOneMore(before: string, at: nat, str: string, i: nat)
    requires i < |str| && at + |str| + 1 <= |before|
    ensures (before[..at] + str[..i] + before[at + i..])[at + i := str[i]]
         == before[..at] + str[..i + 1] + before[at + i + 1..]
  {
    assert before[at + i..] == [before[at + i]] + before[at + i + 1..];
    assert str[..i + 1] == str[..i] + [str[i]];
  }

  lemma Terminated(before: string, at: nat, str: string)
    requires at + |str| + 1 <= |before|
    ensures var after := (before[..at] + str[..|str|] + before[at + |str|..])[at + |str| := NUL];
            && after[..at + |str| + 1] == before[..at] + str + [NUL]
            && after[at + |str| + 1..] == before[at + |str| + 1..]
  {
    assert before[at + |str|..] == [before[at + |str|]] + before[at + |str| + 1..];
    var after := (before[..at] + str[..|str|] + before[at + |str|..])[at + |str| := NUL];
    assert after == before[..at] + str + [NUL] + before[at + |str| + 1..];
  }

  /** `memccpy(&packet[at], str, '\0', ...)`: the string and its terminator. */
  method CopyString(packet: array<char>, at: nat, str: string) returns (end: nat)
    requires at + |str| + 1 <= packet.Length
    modifies packet
    ensures end == at + |str| + 1
    ensures packet[..end] == old(packet[..at]) + str + [NUL]
    ensures packet[end..] == old(packet[at + |str| + 1..])
  {
    ghost var before := packet[..];
    var i := 0;
    while i < |str|
      invariant 0 <= i <= |str|
      invariant packet[..] == before[..at] + str[..i] + before[at + i..]
    {
      CopiedOneMore(before, at, str, i);
      packet[at + i] := str[i];
      i := i + 1;
    }
    Terminated(before, at, str);
    packet[at + i] := NUL;
    end := at + |str| + 1;
    assert packet[..end] == packet[..][..end] && packet[end..] == packet[..][end..];
  }
}
