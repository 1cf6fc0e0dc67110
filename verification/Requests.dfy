/**
 Read and write requests: the printers of tftp.c and session.c, the token
 count of `is_request_valid`, and the split of `session_options_init`.
 */
module Requests {
  import opened CStrings
  import opened Options

  /** `sizeof packet->padding`: 512 bytes less the opcode. */
  const PADDING := 510

  const OCTET := "octet"
  const NETASCII := "netascii"

  /** A printed text after the options before `n`. */
  function TextUpTo(head: string, opts: seq<Opt>, n: nat): (t: string)
    requires n <= |opts| == TOTAL
  {
    head + EncodePairs(ActivePairs(opts, n))
  }

  /** What follows the opcode of a request. */
  function RequestText(filename: string, mode: string, opts: seq<Opt>): (t: string)
    requires |opts| == TOTAL
  {
    TextUpTo(EncodePair((filename, mode)), opts, TOTAL)
  }

  lemma TextNext(head: string, opts: seq<Opt>, n: nat)
    requires n < |opts| == TOTAL
    ensures TextUpTo(head, opts, n + 1) ==
              TextUpTo(head, opts, n) + if opts[n].Active? then EncodePair((NAMES[n], opts[n].value)) else ""
    ensures |TextUpTo(head, opts, n + 1)| <= |TextUpTo(head, opts, TOTAL)|
    ensures |EncodePair((NAMES[n], if opts[n].Active? then opts[n].value else ""))|
         == |NAMES[n]| + 1 + |if opts[n].Active? then opts[n].value else ""| + 1
  {
    hide EncodePairs, ActivePairs;
    EncodeNext(opts, n);
    EncodeGrows(opts, n + 1, TOTAL);
  }

  /** A name and its value, one after the other. */
  method CopyPair(packet: array<char>, at: nat, p: Pair) returns (end: nat)
    requires at + |EncodePair(p)| <= packet.Length
    modifies packet
    ensures end == at + |EncodePair(p)|
    ensures packet[..end] == old(packet[..at]) + EncodePair(p)
  {
    end := CopyString(packet, at, p.0);
    end := CopyString(packet, end, p.1);
  }

  lemma NothingPrinted(opts: seq<Opt>)
    requires |opts| == TOTAL
    ensures EncodePairs(ActivePairs(opts, 0)) == ""
  {
  }

  lemma HeadOnly(filename: string, mode: string, opts: seq<Opt>)
    requires |opts| == TOTAL
    ensures TextUpTo(EncodePair((filename, mode)), opts, 0) == EncodePair((filename, mode))
    ensures |EncodePair((filename, mode))| == |filename| + 1 + |mode| + 1 <= |RequestText(filename, mode, opts)|
  {
    NothingPrinted(opts);
    hide EncodePairs, ActivePairs;
  }

  /** `tftp_rrq_packet_init` and `tftp_wrq_packet_init`, which differ in the
      opcode only: the request is printed whole or refused. */
  method InitRequest(padding: array<char>, filename: string, mode: string, options: seq<Opt>) returns (size: int)
    requires padding.Length == 510 && |options| == TOTAL
    modifies padding
    ensures |RequestText(filename, mode, options)| > 510 ==> size == -1
    ensures |RequestText(filename, mode, options)| <= 510 ==>
              size == 2 + |RequestText(filename, mode, options)|
              && padding[..size - 2] == RequestText(filename, mode, options)
  {
    hide TextUpTo, EncodePair;
    ghost var head := EncodePair((filename, mode));
    HeadOnly(filename, mode, options);
    if |filename| + 1 + |mode| + 1 > PADDING {
      return -1;
    }
    var end: nat := CopyPair(padding, 0, (filename, mode));
    assert padding[..end] == TextUpTo(head, options, 0);
    var o := 0;
    while o < TOTAL
      invariant 0 <= o <= TOTAL && end <= PADDING
      invariant padding[..end] == TextUpTo(head, options, o)
    {
      TextNext(head, options, o);
      if options[o].Active? {
        if |NAMES[o]| + 1 + |options[o].value| + 1 > PADDING - end {
          return -1;
        }
        end := CopyPair(padding, end, (NAMES[o], options[o].value));
      }
      o := o + 1;
    }
    size := 2 + end;
  }

  lemma NoHead(opts: seq<Opt>)
    requires |opts| == TOTAL
    ensures TextUpTo("", opts, 0) == "" && TextUpTo("", opts, TOTAL) == EncodePairs(ActivePairs(opts, TOTAL))
  {
  }

  /** `oack_packet_init`: the text of an OACK. */
  method InitOack(options: seq<Opt>) returns (values: array<char>)
    requires |options| == TOTAL
    ensures fresh(values) && values[..] == EncodePairs(ActivePairs(options, TOTAL))
  {
    hide TextUpTo, EncodePair;
    NoHead(options);
    var length, option := 0, 0;
    while option < TOTAL
      invariant 0 <= option <= TOTAL
      invariant length == |TextUpTo("", options, option)|
    {
      TextNext("", options, option);
      if options[option].Active? {
        length := length + |NAMES[option]| + 1;
        length := length + |options[option].value| + 1;
      }
      option := option + 1;
    }
    values := new char[length];
    var end: nat := 0;
    option := 0;
    while option < TOTAL
      invariant 0 <= option <= TOTAL
      invariant end <= length && values[..end] == TextUpTo("", options, option)
    {
      TextNext("", options, option);
      if options[option].Active? {
        end := CopyPair(values, end, (NAMES[option], options[option].value));
      }
      option := option + 1;
    }
    assert values[..end] == values[..];
  }

  // -------------------------------------------------- the check of tokens

  function Terminators(s: string): (n: nat)
  {
    if s == "" then 0 else Terminators(s[..|s| - 1]) + if s[|s| - 1] == NUL then 1 else 0
  }

  /** The text ends with an empty string, which the loop does not reach. */
  predicate EndsEmpty(s: string)
  {
    s != "" && s[|s| - 1] == NUL && (|s| == 1 || s[|s| - 2] == NUL)
  }

  function TokenCount(s: string): (n: int)
  {
    Terminators(s) - if EndsEmpty(s) then 1 else 0
  }

  predicate WellFormed(s: string)
  {
    TokenCount(s) >= 2 && TokenCount(s) % 2 == 0
  }

  lemma {:induction false} TerminatorsConcat(a: string, b: string)
    ensures Terminators(a + b) == Terminators(a) + Terminators(b)
    decreases |b|
  {
    if b == "" {
      assert a + b == a;
    } else {
      assert (a + b)[..|a + b| - 1] == a + b[..|b| - 1];
      TerminatorsConcat(a, b[..|b| - 1]);
    }
  }

  lemma {:induction false} NoTerminators(s: string)
    requires NulFree(s)
    ensures Terminators(s) == 0
    decreases |s|
  {
    if s != "" {
      NoTerminators(s[..|s| - 1]);
    }
  }

  lemma OneTerminator(s: string, end: nat)
    requires end < |s| && s[end] == NUL
    ensures Terminators(s[..end + 1]) == Terminators(s[..end]) + 1
  {
    assert s[..end + 1][..end] == s[..end];
  }

  /** A string and, if it is there, its terminator. */
  lemma TokenTerminators(s: string, i: nat)
    requires i <= |s|
    ensures var end := i + StrLen(s, i);
            Terminators(s[..end]) == Terminators(s[..i])
            && (end < |s| ==> Terminators(s[..end + 1]) == Terminators(s[..i]) + 1)
  {
    hide Terminators, StrLen;
    var end := i + StrLen(s, i);
    assert s[..end] == s[..i] + s[i..end];
    TerminatorsConcat(s[..i], s[i..end]);
    NoTerminators(s[i..end]);
    if end < |s| {
      OneTerminator(s, end);
    }
  }

  /** Where the loop stops when it found every terminator it looked for. */
  lemma LastToken(s: string, option: nat)
    requires |s| - 1 <= option <= |s| && (option > 0 ==> s[option - 1] == NUL)
    requires option == |s| ==> !EndsEmpty(s)
    ensures TokenCount(s) == Terminators(s[..option])
  {
    if option == |s| {
      assert s[..option] == s;
    }
  }

  /** The loop of `is_request_valid` over what follows the opcode. */
  method CheckTokens(s: string) returns (valid: bool)
    ensures valid <==> WellFormed(s)
  {
    var tokens := 0;
    var option := 0;
    while option < |s| - 1
      invariant 0 <= option <= |s|
      invariant tokens == Terminators(s[..option])
      invariant option > 0 ==> s[option - 1] == NUL
      invariant option == |s| ==> !EndsEmpty(s)
      decreases |s| - option
    {
      TokenTerminators(s, option);
      hide Terminators;
      var end := option + StrLen(s, option);
      if end == |s| {
        assert s[..end] == s;
        assert s[|s| - 1] == s[option..end][|s| - 1 - option];
        return tokens >= 2 && tokens % 2 == 0;
      }
      if option < end {
        assert s[end - 1] == s[option..end][end - 1 - option];
      }
      tokens := tokens + 1;
      option := end + 1;
    }
    LastToken(s, option);
    valid := tokens >= 2 && tokens % 2 == 0;
  }

  // ------------------------------------------------------------- the split

  datatype Split = Split(path: string, mode: string, options: string)

  /** The token check guarantees that the name and the mode are inside the
      datagram, so the size of the options never underflows. */
  lemma SplitFits(s: string)
    requires Terminators(s) >= 2
    ensures var m := |Token(s, 0)| + 1;
            m + |Token(s, m)| + 1 <= |s|
  {
    TokenTerminators(s, 0);
    assert Terminators(s[..0]) == 0;
    hide Terminators;
    var m := StrLen(s, 0) + 1;
    assert s[..|s|] == s;
    if m <= |s| {
      assert |Token(s, 0)| + 1 == m;
      TokenTerminators(s, m);
    }
  }

  /** `session_options_init`: the path, the mode and the rest. */
  function SplitRequest(s: string): (r: Split)
    requires WellFormed(s)
  {
    var m := |Token(s, 0)| + 1;
    var n := m + |Token(s, m)| + 1;
    SplitFits(s);
    Split(Token(s, 0), Token(s, m), s[n..])
  }

  predicate ValidMode(mode: string)
  {
    EqualNoCase(mode, OCTET) || EqualNoCase(mode, NETASCII)
  }

  /** The modes in any mixture of cases, and no others. */
  lemma ValidModeIff(mode: string)
    ensures ValidMode(mode) <==> Spells(mode, "octet") || Spells(mode, "netascii")
  {
    hide EqualNoCase, Spells;
    EqualNoCaseIff(mode, "octet");
    EqualNoCaseIff(mode, "netascii");
  }

  // ---------------------------------------------------------- round trip

  lemma TerminatorsOfPair(p: Pair)
    requires NulFree(p.0) && NulFree(p.1)
    ensures Terminators(EncodePair(p)) == 2
  {
    TerminatorsConcat(p.0 + [NUL] + p.1, [NUL]);
    TerminatorsConcat(p.0 + [NUL], p.1);
    TerminatorsConcat(p.0, [NUL]);
    NoTerminators(p.0);
    NoTerminators(p.1);
    assert Terminators([NUL]) == 1;
  }

  lemma {:induction false} TerminatorsOfPairs(ps: seq<Pair>)
    requires NulFreePairs(ps)
    ensures Terminators(EncodePairs(ps)) == 2 * |ps|
  {
    if ps != [] {
      TerminatorsOfPairs(ps[1..]);
      TerminatorsConcat(EncodePair(ps[0]), EncodePairs(ps[1..]));
      TerminatorsOfPair(ps[0]);
      hide Terminators, EncodePair;
    }
  }

  /** The text ends with an empty string exactly when the last value is empty. */
  lemma EndOfPairs(ps: seq<Pair>, p: Pair)
    requires NulFree(p.0) && NulFree(p.1)
    ensures EndsEmpty(EncodePairs(ps + [p])) <==> p.1 == ""
  {
    EncodeAppend(ps, p);
    hide EncodePairs;
    var s := EncodePairs(ps) + EncodePair(p);
    if p.1 != "" {
      assert s[|s| - 2] == p.1[|p.1| - 1];
    }
  }

  lemma TokenCountOfPairs(ps: seq<Pair>)
    requires ps != [] && NulFreePairs(ps)
    ensures TokenCount(EncodePairs(ps)) == 2 * |ps| - if ps[|ps| - 1].1 == "" then 1 else 0
  {
    TerminatorsOfPairs(ps);
    assert ps == ps[..|ps| - 1] + [ps[|ps| - 1]];
    EndOfPairs(ps[..|ps| - 1], ps[|ps| - 1]);
    hide Terminators, EndsEmpty, EncodePairs;
  }

  lemma SplitPrinted(filename: string, mode: string, ps: seq<Pair>)
    requires NulFree(filename) && NulFree(mode)
    requires WellFormed(EncodePair((filename, mode)) + EncodePairs(ps))
    ensures SplitRequest(EncodePair((filename, mode)) + EncodePairs(ps)) == Split(filename, mode, EncodePairs(ps))
  {
    hide WellFormed, EncodePairs, Token, NulFree;
    var text := EncodePair((filename, mode)) + EncodePairs(ps);
    TokensOfPair("", filename, mode, EncodePairs(ps));
    assert "" + EncodePair((filename, mode)) + EncodePairs(ps) == text;
    assert text[|filename| + 1 + |mode| + 1..] == EncodePairs(ps);
  }

  /** The name and the mode are printed like one more option. */
  lemma TextIsPairs(filename: string, mode: string, ps: seq<Pair>)
    ensures EncodePairs([(filename, mode)] + ps) == EncodePair((filename, mode)) + EncodePairs(ps)
  {
    assert ([(filename, mode)] + ps)[1..] == ps;
    hide EncodePair;
  }

  /** What the server finds in a request that was printed: it passes the check
      if and only if the last value printed is not empty, and then splits into
      the name, the mode and the options that went into it. */
  lemma PrintedRequest(filename: string, mode: string, opts: seq<Opt>)
    requires |opts| == TOTAL && NulFree(filename) && NulFree(mode) && mode != ""
    requires NulFreePairs(ActivePairs(opts, TOTAL))
    ensures var ps, text := ActivePairs(opts, TOTAL), RequestText(filename, mode, opts);
            && (WellFormed(text) <==> (ps != [] ==> ps[|ps| - 1].1 != ""))
            && (WellFormed(text) ==> SplitRequest(text) == Split(filename, mode, EncodePairs(ps)))
  {
    hide ActivePairs, EncodePair, EncodePairs, TokenCount, SplitRequest, NulFree;
    var ps := ActivePairs(opts, TOTAL);
    TextIsPairs(filename, mode, ps);
    TokenCountOfPairs([(filename, mode)] + ps);
    if WellFormed(RequestText(filename, mode, opts)) {
      SplitPrinted(filename, mode, ps);
    }
  }

  /** `opts` as the other end records them after a round trip. */
  predicate Echoes(r: seq<Opt>, opts: seq<Opt>)
    requires |r| == |opts| == TOTAL
  {
    forall o :: 0 <= o < TOTAL ==>
      r[o] == if opts[o].Active? && ValidValue(o, opts[o].value)
              then Active(StoredValue(o, opts[o].value)) else Inactive
  }

  lemma EqualNoCaseReflexive(s: string)
    ensures EqualNoCase(s, s)
  {
  }

  lemma {:induction false} ParseActive(opts: seq<Opt>, n: nat, o: nat)
    requires n <= |opts| == TOTAL && o < TOTAL
    ensures ParsePairs(NONE, ActivePairs(opts, n))[o] ==
              if o < n && opts[o].Active? && ValidValue(o, opts[o].value)
              then Active(StoredValue(o, opts[o].value)) else Inactive
  {
    hide ValidValue, StoredValue, EqualNoCase, ParsePair, Spells;
    if n > 0 {
      ParseActive(opts, n - 1, o);
      if opts[n - 1].Active? {
        var p := (NAMES[n - 1], opts[n - 1].value);
        ParseLast(NONE, ActivePairs(opts, n - 1), p);
        ParsePairAt(ParsePairs(NONE, ActivePairs(opts, n - 1)), p, o);
        EqualNoCaseReflexive(NAMES[n - 1]);
        NamesAreSmall(o);
        EqualNoCaseIff(p.0, NAMES[o]);
        if EqualNoCase(p.0, NAMES[o]) {
          NamesDiffer(p.0, o, n - 1);
        }
      } else {
        assert ActivePairs(opts, n) == ActivePairs(opts, n - 1);
      }
      hide ParsePairs, ActivePairs;
    }
  }

  /** A printed list of options is parsed back option by option; "0" for the
      size becomes an active placeholder, values that are not valid are dropped. */
  lemma OptionsRoundTrip(opts: seq<Opt>)
    requires |opts| == TOTAL && NulFreePairs(ActivePairs(opts, TOTAL))
    ensures Echoes(ParsePairs(NONE, DecodePairs(EncodePairs(ActivePairs(opts, TOTAL)), 0)), opts)
  {
    var ps := ActivePairs(opts, TOTAL);
    DecodeEncode("", ps);
    assert "" + EncodePairs(ps) == EncodePairs(ps);
    forall o | 0 <= o < TOTAL
      ensures ParsePairs(NONE, ps)[o] ==
                if opts[o].Active? && ValidValue(o, opts[o].value)
                then Active(StoredValue(o, opts[o].value)) else Inactive
    {
      ParseActive(opts, TOTAL, o);
    }
    hide ParsePairs, DecodePairs, EncodePairs, ActivePairs, ValidValue, StoredValue;
  }

  lemma {:induction false} ActivePairsNulFree(opts: seq<Opt>, n: nat)
    requires n <= |opts| == TOTAL
    requires forall o :: 0 <= o < n && opts[o].Active? ==> NulFree(opts[o].value) && opts[o].value != ""
    ensures NulFreePairs(ActivePairs(opts, n))
    ensures forall i :: 0 <= i < |ActivePairs(opts, n)| ==> ActivePairs(opts, n)[i].1 != ""
  {
    if n > 0 {
      ActivePairsNulFree(opts, n - 1);
    }
  }

  /** Every name, mode and list of options that was printed is recovered. */
  lemma RequestRoundTrip(filename: string, mode: string, opts: seq<Opt>)
    requires |opts| == TOTAL && NulFree(filename) && (mode == OCTET || mode == NETASCII)
    requires forall o :: 0 <= o < TOTAL && opts[o].Active? ==> NulFree(opts[o].value) && opts[o].value != ""
    ensures var text := RequestText(filename, mode, opts);
            && WellFormed(text)
            && SplitRequest(text).path == filename
            && SplitRequest(text).mode == mode && ValidMode(mode)
            && Echoes(ParsePairs(NONE, DecodePairs(SplitRequest(text).options, 0)), opts)
  {
    ActivePairsNulFree(opts, TOTAL);
    PrintedRequest(filename, mode, opts);
    OptionsRoundTrip(opts);
    EqualNoCaseReflexive(mode);
    hide WellFormed, ParsePairs, DecodePairs, EncodePairs, ActivePairs, Echoes, EqualNoCase;
  }
}
