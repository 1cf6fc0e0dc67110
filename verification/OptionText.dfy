/**
 Options as the parser records them: pointers into the text that was parsed,
 or into storage of their own.
 */
module OptionText {
  import opened CStrings
  import opened Options

  /** `value` of a `struct tftp_option`: a place in the text, or a string of
      its own, such as the buffer for a file size; Missing when not active. */
  datatype Ref = Missing | InText(pos: nat) | Own(value: string)

  const NOWHERE: seq<Ref> := [Missing, Missing, Missing, Missing, Missing]

  function ReadRef(text: string, ref: Ref): (opt: Opt)
  {
    match ref
    case Missing => Inactive
    case InText(pos) => Active(Token(text, pos))
    case Own(value) => Active(value)
  }

  function ReadAll(text: string, refs: seq<Ref>): (opts: seq<Opt>)
    requires |refs| == TOTAL
    ensures |opts| == TOTAL
  {
    [ReadRef(text, refs[0]), ReadRef(text, refs[1]), ReadRef(text, refs[2]), ReadRef(text, refs[3]), ReadRef(text, refs[4])]
  }

  lemma ReadAt(text: string, refs: seq<Ref>, o: nat)
    requires |refs| == TOTAL && o < TOTAL
    ensures ReadAll(text, refs)[o] == ReadRef(text, refs[o])
  {
    hide ReadRef;
  }

  // ---------------------------------------------------------------- parser

  /** What is recorded for option `o` with the value `val` found at `v`. */
  function RefFor(o: nat, val: string, v: nat): (ref: Ref)
  {
    if o == READ_TYPE then InText(v)
    else if o == TSIZE && val == "0" then Own("")
    else
      StripIsSuffix(val);
      InText(v + (|val| - |SkipSpaceAndPlus(val)|))
  }

  function LocatePair(refs: seq<Ref>, name: string, val: string, v: nat): (r: seq<Ref>)
    requires |refs| == TOTAL
    ensures |r| == TOTAL
  {
    var o := FindName(name, 0);
    if o < TOTAL && ValidValue(o, val) then refs[o := RefFor(o, val, v)] else refs
  }

  /** Where the value of the name at `i` starts. */
  function ValueAt(text: string, i: nat): (v: nat)
    ensures i < v
  {
    i + |Token(text, i)| + 1
  }

  /** Where the name after the pair at `i` starts. */
  function NextPair(text: string, i: nat): (j: nat)
    ensures i + 1 < j
  {
    ValueAt(text, i) + |Token(text, ValueAt(text, i))| + 1
  }

  function Locate(text: string, i: nat, refs: seq<Ref>): (r: seq<Ref>)
    requires |refs| == TOTAL
    ensures |r| == TOTAL
    decreases |text| - i
  {
    if i + 1 >= |text| then refs
    else
      var v := ValueAt(text, i);
      Locate(text, NextPair(text, i), LocatePair(refs, Token(text, i), Token(text, v), v))
  }

  /** `tftp_parse_options`. */
  method ParseOptions(options: array<Ref>, text: string)
    requires options.Length == TOTAL
    modifies options
    ensures options[..] == Locate(text, 0, old(options[..]))
  {
    hide ValidValue, RefFor, Token, EqualNoCase, FindName;
    var option: nat := 0;
    while option + 1 < |text|
      invariant Locate(text, option, options[..]) == Locate(text, 0, old(options[..]))
      decreases |text| - option
    {
      var name := Token(text, option);
      var v := option + |name| + 1;
      var val := Token(text, v);
      ghost var before := options[..];
      var o := 0;
      while o < TOTAL
        invariant 0 <= o <= TOTAL && options[..] == before
        invariant forall i :: 0 <= i < o ==> !EqualNoCase(name, NAMES[i])
      {
        if EqualNoCase(name, NAMES[o]) {
          if ValidValue(o, val) {
            options[o] := RefFor(o, val, v);
          }
          break;
        }
        o := o + 1;
      }
      assert o == FindName(name, 0);
      assert options[..] == LocatePair(before, name, val, v);
      option := v + |val| + 1;
    }
  }

  // ------------------------------------------- places and what is read there

  /** Inside a token, a later start reads the rest of it. */
  lemma TokenSuffix(text: string, v: nat, k: nat)
    requires k <= |Token(text, v)|
    ensures Token(text, v + k) == Token(text, v)[k..]
    ensures v <= |text| ==> v + k <= |text|
  {
    if v <= |text| {
      var n := StrLen(text, v);
      assert text[v..v + n][k..] == text[v + k..v + n];
      StrLenIs(text, v + k, n - k);
    }
  }

  lemma RefForReads(text: string, o: nat, v: nat)
    requires o < TOTAL && ValidValue(o, Token(text, v))
    ensures ReadRef(text, RefFor(o, Token(text, v), v)) == Active(StoredValue(o, Token(text, v)))
  {
    hide ValidValue, Token, SkipSpaceAndPlus;
    var val := Token(text, v);
    StripIsSuffix(val);
    TokenSuffix(text, v, |val| - |SkipSpaceAndPlus(val)|);
  }

  lemma LocatePairReads(text: string, refs: seq<Ref>, name: string, v: nat)
    requires |refs| == TOTAL
    ensures ReadAll(text, LocatePair(refs, name, Token(text, v), v)) == ParsePair(ReadAll(text, refs), (name, Token(text, v)))
  {
    hide ValidValue, StoredValue, RefFor, Token, ReadRef, FindName;
    var o := FindName(name, 0);
    if o < TOTAL && ValidValue(o, Token(text, v)) {
      RefForReads(text, o, v);
    }
  }

  /** What is read where the parser pointed is what the pairs of the text say. */
  lemma {:induction false} LocateReads(text: string, i: nat, refs: seq<Ref>)
    requires |refs| == TOTAL
    ensures ReadAll(text, Locate(text, i, refs)) == ParsePairs(ReadAll(text, refs), DecodePairs(text, i))
    decreases |text| - i
  {
    hide Token, LocatePair, ReadAll, ParsePair;
    if i + 1 < |text| {
      var v := ValueAt(text, i);
      LocatePairReads(text, refs, Token(text, i), v);
      LocateReads(text, NextPair(text, i), LocatePair(refs, Token(text, i), Token(text, v), v));
    }
  }

  lemma NothingRead(text: string)
    ensures ReadAll(text, NOWHERE) == NONE
  {
  }

  /** What the last valid occurrence of `o` from `i` on records. */
  function LastRef(text: string, i: nat, o: nat): (ref: Ref)
    requires o < TOTAL
    decreases |text| - i
  {
    if i + 1 >= |text| then Missing
    else
      var v := ValueAt(text, i);
      var later := LastRef(text, NextPair(text, i), o);
      if !later.Missing? then later
      else if FindName(Token(text, i), 0) == o && ValidValue(o, Token(text, v)) then RefFor(o, Token(text, v), v)
      else Missing
  }

  lemma {:induction false} LocateAt(text: string, i: nat, refs: seq<Ref>, o: nat)
    requires |refs| == TOTAL && o < TOTAL
    ensures Locate(text, i, refs)[o] == if LastRef(text, i, o).Missing? then refs[o] else LastRef(text, i, o)
    decreases |text| - i
  {
    hide Token, ValidValue, FindName;
    if i + 1 < |text| {
      var v := ValueAt(text, i);
      LocateAt(text, NextPair(text, i), LocatePair(refs, Token(text, i), Token(text, v), v), o);
      hide Locate;
    }
  }

  /** Parsing the same text a second time, as the server does for the type of
      a read request, changes nothing. */
  lemma LocateTwice(text: string, refs: seq<Ref>)
    requires |refs| == TOTAL
    ensures Locate(text, 0, Locate(text, 0, refs)) == Locate(text, 0, refs)
  {
    hide Locate, LastRef;
    var r := Locate(text, 0, refs);
    forall o | 0 <= o < TOTAL ensures Locate(text, 0, r)[o] == r[o] {
      LocateAt(text, 0, refs, o);
      LocateAt(text, 0, r, o);
    }
  }

  /** A file size that is recorded in the text is not the empty string. */
  lemma {:induction false} SizeInTextIsNumber(text: string, i: nat)
    ensures LastRef(text, i, TSIZE).InText? ==> Token(text, LastRef(text, i, TSIZE).pos) != ""
    decreases |text| - i
  {
    hide Token, FindName, Strtoul, SkipSpaceAndPlus;
    if i + 1 < |text| {
      SizeInTextIsNumber(text, NextPair(text, i));
      var v := ValueAt(text, i);
      var val := Token(text, v);
      if val != "" && Strtoul(val).rest == "" {
        StripLeavesDigits(val);
        StripIsSuffix(val);
        TokenSuffix(text, v, |val| - |SkipSpaceAndPlus(val)|);
      }
    }
  }

  // ------------------------------------------------------- separate places

  /** Every recorded value ends before `i`. */
  predicate EndBefore(text: string, refs: seq<Ref>, i: nat)
    requires |refs| == TOTAL
  {
    forall o :: 0 <= o < TOTAL && refs[o].InText? ==>
                  refs[o].pos <= |text| && refs[o].pos + |Token(text, refs[o].pos)| < i
  }

  /** Of two recorded values, the first ends before the second starts. */
  predicate Apart(text: string, refs: seq<Ref>)
    requires |refs| == TOTAL
  {
    forall a, b :: 0 <= a < b < TOTAL && refs[a].InText? && refs[b].InText? ==>
                     || refs[a].pos + |Token(text, refs[a].pos)| < refs[b].pos
                     || refs[b].pos + |Token(text, refs[b].pos)| < refs[a].pos
  }

  lemma EmptyIsInvalid(o: nat)
    requires o < TOTAL
    ensures !ValidValue(o, "")
  {
  }

  lemma PlaceOfRef(text: string, o: nat, v: nat)
    requires o < TOTAL && ValidValue(o, Token(text, v)) && RefFor(o, Token(text, v), v).InText?
    ensures var pos := RefFor(o, Token(text, v), v).pos;
            v <= pos <= |text| && pos + |Token(text, pos)| == v + |Token(text, v)|
  {
    hide StrLen, SkipSpaceAndPlus, Strtoul;
    var val := Token(text, v);
    assert val != "" by { EmptyIsInvalid(o); }
    assert v <= |text|;
    StripIsSuffix(val);
    TokenSuffix(text, v, |val| - |SkipSpaceAndPlus(val)|);
    hide Token;
  }

  lemma LocatePairApart(text: string, i: nat, refs: seq<Ref>)
    requires |refs| == TOTAL && Apart(text, refs) && EndBefore(text, refs, i)
    ensures var v := ValueAt(text, i);
            var r := LocatePair(refs, Token(text, i), Token(text, v), v);
            Apart(text, r) && EndBefore(text, r, NextPair(text, i))
  {
    hide Token, ValidValue, FindName, RefFor;
    var v := ValueAt(text, i);
    var o := FindName(Token(text, i), 0);
    if o < TOTAL && ValidValue(o, Token(text, v)) && RefFor(o, Token(text, v), v).InText? {
      PlaceOfRef(text, o, v);
    }
  }

  lemma {:induction false} LocateApart(text: string, i: nat, refs: seq<Ref>)
    requires |refs| == TOTAL && Apart(text, refs) && EndBefore(text, refs, i)
    ensures Apart(text, Locate(text, i, refs))
    ensures exists j :: EndBefore(text, Locate(text, i, refs), j)
    decreases |text| - i
  {
    hide Token, LocatePair, Apart, EndBefore;
    if i + 1 < |text| {
      var v := ValueAt(text, i);
      LocatePairApart(text, i, refs);
      LocateApart(text, NextPair(text, i), LocatePair(refs, Token(text, i), Token(text, v), v));
    } else {
      assert EndBefore(text, Locate(text, i, refs), i);
    }
  }

  // -------------------------------------------------------------- printing

  /** `sprintf` of `d` at `p`, terminator included, in a buffer that is
      followed by zeros. */
  function Overwrite(text: string, p: nat, d: string): (r: string)
    requires p <= |text|
  {
    text[..p] + d + [NUL] + if p + |d| + 1 <= |text| then text[p + |d| + 1..] else ""
  }

  lemma StrLenSame(s: string, t: string, i: nat)
    requires i <= |s| == |t| && s[i..] == t[i..]
    ensures StrLen(s, i) == StrLen(t, i)
  {
    var n := StrLen(s, i);
    assert t[i..i + n] == t[i..][..n] == s[i..][..n] == s[i..i + n];
    if i + n < |s| {
      assert t[i + n] == t[i..][n] == s[i..][n] == s[i + n];
    }
    StrLenIs(t, i, n);
  }

  lemma TokenBeforePrint(text: string, p: nat, d: string, w: nat)
    requires p <= |text| && w < p && w + |Token(text, w)| < p
    ensures Token(Overwrite(text, p, d), w) == Token(text, w)
  {
    var s, n := Overwrite(text, p, d), StrLen(text, w);
    hide StrLen;
    assert s[..p] == text[..p];
    assert s[w..w + n] == s[..p][w..w + n] == text[..p][w..w + n] == text[w..w + n];
    assert s[w + n] == s[..p][w + n] == text[w + n];
    StrLenIs(s, w, n);
  }

  lemma NulFreeSuffix(d: string, k: nat)
    requires NulFree(d) && k <= |d|
    ensures NulFree(d[k..])
  {
  }

  lemma TokenInPrint(text: string, p: nat, d: string, k: nat)
    requires NulFree(d) && p <= |text| && k <= |d|
    ensures Token(Overwrite(text, p, d), p + k) == d[k..]
  {
    hide StrLen, NulFree;
    var s := Overwrite(text, p, d);
    var e := text[..p] + d[..k] + d[k..] + [NUL];
    assert s[..p + |d| + 1] == e;
    assert s[p + k..p + |d|] == e[p + k..p + |d|] == d[k..];
    assert s[p + |d|] == e[p + |d|] == NUL;
    NulFreeSuffix(d, k);
    StrLenIs(s, p + k, |d| - k);
  }

  lemma TokenBehindPrint(text: string, p: nat, d: string, w: nat)
    requires p <= |text| && p + |d| < w
    ensures Token(Overwrite(text, p, d), w) == Token(text, w)
  {
    hide StrLen, NulFree;
    var s, q := Overwrite(text, p, d), p + |d| + 1;
    if q <= |text| && w <= |text| {
      assert s[q..] == text[q..];
      assert s[w..] == s[q..][w - q..] == text[q..][w - q..] == text[w..];
      StrLenSame(s, text, w);
      var n := StrLen(s, w);
      assert s[w..w + n] == s[w..][..n];
      assert text[w..w + n] == text[w..][..n];
    } else if q <= |text| {
      assert |s| == |text|;
    } else {
      assert |s| == q;
      if w == q {
        StrLenIs(s, w, 0);
      }
    }
  }

  /** The string at `w` after `d` was printed at `p`: where the print reached,
      the rest of it; elsewhere what was there. */
  lemma TokenAfterPrint(text: string, p: nat, d: string, w: nat)
    requires NulFree(d) && p <= |text|
    requires w < p ==> w + |Token(text, w)| < p
    ensures Token(Overwrite(text, p, d), w) == if p <= w <= p + |d| then d[w - p..] else Token(text, w)
  {
    hide Token, Overwrite, NulFree;
    if w < p {
      TokenBeforePrint(text, p, d, w);
    } else if w <= p + |d| {
      TokenInPrint(text, p, d, w - p);
    } else {
      TokenBehindPrint(text, p, d, w);
    }
  }
}
