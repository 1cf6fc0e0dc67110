/**
 `parse_options` in closed form, for the option text of any client: the
 parameters of the server, and what becomes of them when the size of the file
 is printed into the middle of that text.
 */
module ServerLoop {
  import opened BlockNumbers
  import opened CStrings
  import opened Options
  import opened OptionText
  import opened Packets
  import opened Requests
  import opened Session
  import opened Negotiation

  predicate SizeFits(env: Env)
  {
    env.fileSize.Some? ==> env.fileSize.value <= ULONG_MAX
  }

  // ----------------------------------------------------------- the values

  lemma PrintedNumber(n: nat, lo: nat, hi: nat)
    requires lo <= n <= hi <= ULONG_MAX
    ensures NumberWithin(Print(n), lo, hi) && SkipSpaceAndPlus(Print(n)) == Print(n)
    ensures Strtoul(Print(n)).value == n && NulFree(Print(n)) && !EqualNoCase(Print(n), ADAPTIVE)
  {
    PrintRoundTrip(n);
    hide Strtoul, SkipSpaceAndPlus;
    assert IsDigit(Print(n)[0]);
  }

  lemma LetterIsNoNumber(v: string)
    requires v != "" && Lower(v[0]) == 'a'
    ensures Strtoul(v).value == 0
  {
    assert SkipSpace(v) == v;
    assert DigitCount(v) == 0;
  }

  lemma AdaptiveIsNoNumber()
    ensures !NumberWithin(ADAPTIVE, 1, 255) && NulFree(ADAPTIVE) && EqualNoCase(ADAPTIVE, ADAPTIVE)
  {
    hide Strtoul;
    LetterIsNoNumber(ADAPTIVE);
    EqualNoCaseReflexive(ADAPTIVE);
  }

  lemma DecimalOfZero()
    ensures Decimal("0") == 0
  {
    assert "0"[..0] == "";
    assert Decimal("") == 0;
  }

  /** A size is valid in an OACK and is read back as it was. */
  lemma PrintedSize(n: nat)
    requires n <= ULONG_MAX
    ensures ValidValue(TSIZE, Print(n)) && NulFree(Print(n))
    ensures Strtoul(StoredValue(TSIZE, Print(n))).value == n
  {
    PrintRoundTrip(n);
    if Print(n) == "0" {
      assert DigitCount("") == 0;
      assert SkipSpace("") == "";
      assert Strtoul("0").value == 0 by { assert Strtoul(Print(n)).value == n; DecimalOfZero(); DecimalOfPrint(n); }
    }
  }

  // ------------------------------------------------------------- the loop

  predicate NamesAdaptive(opt: Opt)
  {
    opt.Active? && EqualNoCase(opt.value, ADAPTIVE)
  }

  predicate AnyActive(opts: seq<Opt>)
    requires |opts| == TOTAL
  {
    exists o :: 0 <= o < TOTAL && opts[o].Active?
  }

  predicate AnyPresent(refs: seq<Ref>)
    requires |refs| == TOTAL
  {
    exists o :: 0 <= o < TOTAL && !refs[o].Missing?
  }

  /** The size is printed into the text. */
  predicate PrintsInText(env: Env, text: string, refs: seq<Ref>)
    requires |refs| == TOTAL
  {
    env.fileSize.Some? && refs[TSIZE].InText? && refs[TSIZE].pos <= |text|
  }

  function TextAfter(env: Env, text: string, refs: seq<Ref>): (r: string)
    requires |refs| == TOTAL
  {
    if PrintsInText(env, text, refs) then Overwrite(text, refs[TSIZE].pos, Print(env.fileSize.value)) else text
  }

  function RefsAfter(env: Env, refs: seq<Ref>): (r: seq<Ref>)
    requires |refs| == TOTAL
    ensures |r| == TOTAL
  {
    if env.fileSize.None? then refs[TSIZE := Missing]
    else if refs[TSIZE].Own? then refs[TSIZE := Own(Print(env.fileSize.value))]
    else refs
  }

  /** The window is read after the size was printed, block size and time-out
      before. */
  function Decided(env: Env, text: string, refs: seq<Ref>, adaptive: bool): (s: Server)
    requires |refs| == TOTAL
  {
    Server(
      TextAfter(env, text, refs),
      RefsAfter(env, refs),
      AnyPresent(refs),
      Wrap16(Number(ReadRef(text, refs[BLKSIZE]), DEFAULT_BLKSIZE)),
      Wrap16(Number(ReadRef(TextAfter(env, text, refs), refs[WINDOWSIZE]), DEFAULT_WINDOW)),
      if NamesAdaptive(ReadRef(text, refs[TIMEOUT])) then env.timeout
      else Wrap8(Number(ReadRef(text, refs[TIMEOUT]), env.timeout)),
      adaptive || NamesAdaptive(ReadRef(text, refs[TIMEOUT])))
  }

  lemma FirstTwo(env: Env, s: Server)
    requires |s.recognized| == TOTAL
    ensures var t, b, o := Apply(env, Apply(env, s, 0), 1), ReadRef(s.text, s.recognized[BLKSIZE]),
                           ReadRef(s.text, s.recognized[TIMEOUT]);
            t == Server(s.text, s.recognized,
                        s.required || b.Active? || o.Active?,
                        if b.Active? then Wrap16(Number(b, 0)) else s.blockSize,
                        s.windowSize,
                        if o.Inactive? || NamesAdaptive(o) then s.timeout else Wrap8(Number(o, 0)),
                        s.adaptive || NamesAdaptive(o))
  {
    hide Strtoul, EqualNoCase, Print, Wrap16, Wrap8, Token;
  }

  lemma SizeTurn(env: Env, s: Server)
    requires |s.recognized| == TOTAL
    ensures Apply(env, s, TSIZE) ==
              s.(text := TextAfter(env, s.text, s.recognized), recognized := RefsAfter(env, s.recognized),
                 required := s.required || !s.recognized[TSIZE].Missing?)
  {
    hide Print, Overwrite;
  }

  lemma LastTwo(env: Env, s: Server)
    requires |s.recognized| == TOTAL
    ensures var t, w := Apply(env, Apply(env, s, WINDOWSIZE), READ_TYPE), ReadRef(s.text, s.recognized[WINDOWSIZE]);
            t == s.(required := s.required || w.Active? || !s.recognized[READ_TYPE].Missing?,
                    windowSize := if w.Active? then Wrap16(Number(w, 0)) else s.windowSize)
  {
    hide Strtoul, Wrap16, Token;
  }

  lemma ApplyAll(env: Env, s: Server)
    requires |s.recognized| == TOTAL
    ensures ApplyFirst(env, s, TOTAL) ==
              Apply(env, Apply(env, Apply(env, Apply(env, Apply(env, s, 0), 1), 2), 3), 4)
  {
    hide Apply;
    assert ApplyFirst(env, s, 1) == Apply(env, s, 0);
    assert ApplyFirst(env, s, 2) == Apply(env, ApplyFirst(env, s, 1), 1);
    assert ApplyFirst(env, s, 3) == Apply(env, ApplyFirst(env, s, 2), 2);
    assert ApplyFirst(env, s, 4) == Apply(env, ApplyFirst(env, s, 3), 3);
  }

  lemma SmallDefaults(env: Env)
    ensures Wrap16(DEFAULT_BLKSIZE) == DEFAULT_BLKSIZE && Wrap16(DEFAULT_WINDOW) == DEFAULT_WINDOW
    ensures Wrap8(env.timeout) == env.timeout
  {
  }

  lemma LoopDecides(env: Env, text: string, refs: seq<Ref>, adaptive: bool)
    requires |refs| == TOTAL
    ensures ApplyFirst(env, InitialServer(env, text).(recognized := refs, adaptive := adaptive), TOTAL)
         == Decided(env, text, refs, adaptive)
  {
    hide Apply, ApplyFirst, Strtoul, Print, EqualNoCase, Wrap16, Wrap8, Token, TextAfter;
    var s := InitialServer(env, text).(recognized := refs, adaptive := adaptive);
    ApplyAll(env, s);
    FirstTwo(env, s);
    SizeTurn(env, Apply(env, Apply(env, s, 0), 1));
    LastTwo(env, Apply(env, Apply(env, Apply(env, s, 0), 1), 2));
    SmallDefaults(env);
  }

  // ------------------------------------------------------- where values are

  /** What the server reads before anything is printed. */
  lemma RecognizedReads(env: Env, text: string)
    ensures var parsed := ParsePairs(NONE, DecodePairs(text, 0));
            var typed := if env.list then parsed else parsed[READ_TYPE := Inactive];
            ReadAll(text, Recognized(env, text)) ==
              if env.adaptive && AsksAdaptive(DecodePairs(text, 0)) then typed[TIMEOUT := Active(ADAPTIVE)] else typed
  {
    hide Locate, ParsePairs, DecodePairs, AsksAdaptive, Token;
    LocateReads(text, 0, NOWHERE);
    NothingRead(text);
  }

  /** Each recorded value is its own part of the text. */
  predicate Placed(text: string, refs: seq<Ref>)
    requires |refs| == TOTAL
  {
    && Apart(text, refs)
    && forall o :: 0 <= o < TOTAL && refs[o].InText? ==> refs[o].pos <= |text|
  }

  lemma NowherePlaced(text: string)
    ensures Apart(text, NOWHERE)
  {
    hide Token;
  }

  lemma LocatePlaces(text: string)
    ensures Placed(text, Locate(text, 0, NOWHERE))
  {
    hide Locate, Token, Apart;
    assert Apart(text, NOWHERE) by { NowherePlaced(text); }
    LocateApart(text, 0, NOWHERE);
    var j :| EndBefore(text, Locate(text, 0, NOWHERE), j);
  }

  lemma PlacedUpdate(text: string, refs: seq<Ref>, o: nat, ref: Ref)
    requires |refs| == TOTAL && Placed(text, refs) && o < TOTAL && !ref.InText?
    ensures Placed(text, refs[o := ref])
  {
    hide Token;
  }

  lemma {:induction false} OwnOnlySize(text: string, i: nat, o: nat)
    requires o < TOTAL && o != TSIZE
    ensures !LastRef(text, i, o).Own?
    decreases |text| - i
  {
    hide Token, FindName, ValidValue, SkipSpaceAndPlus;
    if i + 1 < |text| {
      OwnOnlySize(text, NextPair(text, i), o);
    }
  }

  lemma RecognizedPlaces(env: Env, text: string)
    ensures var refs := Recognized(env, text);
            && Placed(text, refs)
            && !refs[WINDOWSIZE].Own? && !refs[BLKSIZE].Own?
            && (refs[TSIZE].InText? ==> Token(text, refs[TSIZE].pos) != "")
  {
    hide Locate, DecodePairs, AsksAdaptive, Token, LastRef, Placed;
    LocatePlaces(text);
    var located := Locate(text, 0, NOWHERE);
    PlacedUpdate(text, located, READ_TYPE, Missing);
    var typed := if env.list then located else located[READ_TYPE := Missing];
    PlacedUpdate(text, typed, TIMEOUT, Own(ADAPTIVE));
    LocateAt(text, 0, NOWHERE, TSIZE);
    SizeInTextIsNumber(text, 0);
    LocateAt(text, 0, NOWHERE, WINDOWSIZE);
    OwnOnlySize(text, 0, WINDOWSIZE);
    LocateAt(text, 0, NOWHERE, BLKSIZE);
    OwnOnlySize(text, 0, BLKSIZE);
  }

  /** A number option that is active after parsing is in its range. */
  lemma ParsedWithin(ps: seq<Pair>, o: nat, lo: nat, hi: nat)
    requires o == BLKSIZE || o == TIMEOUT || o == WINDOWSIZE
    requires lo == (if o == BLKSIZE then 8 else 1)
    requires hi == (if o == BLKSIZE then 65464 else if o == TIMEOUT then 255 else 65535)
    ensures var opt := ParsePairs(NONE, ps)[o]; opt.Active? ==> lo <= Number(opt, 0) <= hi
  {
    hide ParsePairs, Strtoul, SkipSpaceAndPlus, EqualNoCase, LastOccurrence;
    ParsingSound(NONE, ps, o);
    if ParsePairs(NONE, ps)[o].Active? {
      var val := ps[LastOccurrence(ps, o)].1;
      assert Occurs(ps[LastOccurrence(ps, o)], o);
      StoredNumberWithin(val, lo, hi);
    }
  }

  lemma InactiveNumber(opt: Opt, otherwise: nat)
    ensures Number(opt, otherwise) == if opt.Active? then Number(opt, 0) else otherwise
  {
  }

  lemma NumberStartsWithDigitOrSign(val: string)
    requires NumberWithin(val, 1, 255)
    ensures !EqualNoCase(SkipSpaceAndPlus(val), ADAPTIVE)
  {
    StripKeepsValue(val);
    var v := SkipSpaceAndPlus(val);
    if v != "" && Lower(v[0]) == 'a' {
      LetterIsNoNumber(v);
    }
    hide Strtoul, SkipSpaceAndPlus;
  }

  /** A time-out that was parsed as a number does not read "adaptive". */
  lemma NumericIsNotAdaptive(ps: seq<Pair>)
    ensures !NamesAdaptive(ParsePairs(NONE, ps)[TIMEOUT])
  {
    hide ParsePairs, LastOccurrence;
    ParsingSound(NONE, ps, TIMEOUT);
    var opt := ParsePairs(NONE, ps)[TIMEOUT];
    if opt.Active? {
      var val := ps[LastOccurrence(ps, TIMEOUT)].1;
      assert Occurs(ps[LastOccurrence(ps, TIMEOUT)], TIMEOUT);
      NumberStartsWithDigitOrSign(val);
    }
  }

  // -------------------------------------------------------- any request

  /** The printed size reaches the recorded value of option `o`. */
  predicate PrintedOver(env: Env, text: string, o: nat)
    requires o < TOTAL
  {
    var refs := Recognized(env, text);
    && env.fileSize.Some? && refs[TSIZE].InText? && refs[o].InText?
    && refs[TSIZE].pos < refs[o].pos <= refs[TSIZE].pos + |Print(env.fileSize.value)|
  }

  /** The last digits of the size, where that value was. */
  function DigitsOver(env: Env, text: string, o: nat): (d: string)
    requires o < TOTAL && PrintedOver(env, text, o)
    ensures AllDigits(d)
  {
    var refs := Recognized(env, text);
    Print(env.fileSize.value)[refs[o].pos - refs[TSIZE].pos..]
  }

  /** The window size as it was requested. */
  function WindowRequested(text: string): (n: nat)
  {
    Number(ParsePairs(NONE, DecodePairs(text, 0))[WINDOWSIZE], DEFAULT_WINDOW)
  }

  lemma {:induction false} DecimalSuffix(s: string, k: nat)
    requires AllDigits(s) && k <= |s|
    ensures Decimal(s[k..]) <= Decimal(s)
    decreases |s|
  {
    if k < |s| {
      var before := s[..|s| - 1];
      assert s[k..][..|s| - k - 1] == before[k..];
      DecimalSuffix(before, k);
    }
  }

  lemma DigitsRead(s: string)
    requires AllDigits(s) && Decimal(s) <= ULONG_MAX
    ensures Strtoul(s).value == Decimal(s)
  {
    DigitCountOfDigits(s);
    assert s[..|s|] == s;
    assert SkipSpace(s) == s;
  }

  /** Two recorded values are different places. */
  lemma SizeApart(text: string, refs: seq<Ref>, o: nat)
    requires |refs| == TOTAL && Apart(text, refs) && o < TOTAL && o != TSIZE
    requires refs[TSIZE].InText? && refs[o].InText?
    ensures var p, w := refs[TSIZE].pos, refs[o].pos;
            p + |Token(text, p)| < w || w + |Token(text, w)| < p
  {
    hide Token;
  }

  /** The value of another option is what was recorded, or the end of the
      printed size. */
  lemma ReadAfterPrint(env: Env, text: string, o: nat)
    requires SizeFits(env) && o < TOTAL && o != TSIZE
    ensures var refs := Recognized(env, text);
            ReadRef(TextAfter(env, text, refs), refs[o]) ==
              if PrintedOver(env, text, o) then Active(DigitsOver(env, text, o)) else ReadRef(text, refs[o])
    ensures PrintedOver(env, text, o) ==>
              Strtoul(DigitsOver(env, text, o)).value == Decimal(DigitsOver(env, text, o))
  {
    hide Recognized, Token, Strtoul, Overwrite, Decimal, Apart;
    RecognizedPlaces(env, text);
    var refs := Recognized(env, text);
    if PrintsInText(env, text, refs) && refs[o].InText? {
      var d, p, w := Print(env.fileSize.value), refs[TSIZE].pos, refs[o].pos;
      PrintRoundTrip(env.fileSize.value);
      SizeApart(text, refs, o);
      TokenAfterPrint(text, p, d, w);
      if PrintedOver(env, text, o) {
        DecimalOfPrint(env.fileSize.value);
        DecimalSuffix(d, w - p);
        DigitsRead(d[w - p..]);
      }
    }
  }

  /** What the window size is read from. */
  lemma WindowRead(env: Env, text: string)
    requires SizeFits(env)
    ensures var refs := Recognized(env, text);
            Number(ReadRef(TextAfter(env, text, refs), refs[WINDOWSIZE]), DEFAULT_WINDOW) ==
              if PrintedOver(env, text, WINDOWSIZE) then Decimal(DigitsOver(env, text, WINDOWSIZE)) else WindowRequested(text)
  {
    hide Recognized, ParsePairs, DecodePairs, Token, Strtoul, Decimal, ReadAll, ReadRef, TextAfter, PrintedOver, DigitsOver;
    RecognizedReads(env, text);
    ReadAt(text, Recognized(env, text), WINDOWSIZE);
    ReadAfterPrint(env, text, WINDOWSIZE);
  }

  lemma BlockSizeWithin(env: Env, text: string)
    ensures 8 <= Wrap16(Number(ReadRef(text, Recognized(env, text)[BLKSIZE]), DEFAULT_BLKSIZE)) <= 65464
  {
    hide ParsePairs, DecodePairs, AsksAdaptive, EqualNoCase, Recognized, Token, ReadAll, Strtoul;
    var ps := DecodePairs(text, 0);
    ParsedWithin(ps, BLKSIZE, 8, 65464);
    RecognizedReads(env, text);
    ReadAt(text, Recognized(env, text), BLKSIZE);
    InactiveNumber(ReadRef(text, Recognized(env, text)[BLKSIZE]), DEFAULT_BLKSIZE);
    hide ReadRef, Number;
  }

  lemma TimeoutWithin(env: Env, text: string)
    ensures var opt := ReadRef(text, Recognized(env, text)[TIMEOUT]);
            && (NamesAdaptive(opt) ==> env.adaptive)
            && (!NamesAdaptive(opt) ==> var n := Wrap8(Number(opt, env.timeout)); n == env.timeout || 1 <= n <= 255)
  {
    hide ParsePairs, DecodePairs, AsksAdaptive, EqualNoCase, Recognized, Token, ReadAll, Strtoul;
    var ps := DecodePairs(text, 0);
    ParsedWithin(ps, TIMEOUT, 1, 255);
    RecognizedReads(env, text);
    ReadAt(text, Recognized(env, text), TIMEOUT);
    InactiveNumber(ReadRef(text, Recognized(env, text)[TIMEOUT]), env.timeout);
    NumericIsNotAdaptive(ps);
    AdaptiveIsNoNumber();
    hide ReadRef, Number;
  }

  lemma WindowWithin(text: string)
    ensures 1 <= WindowRequested(text) <= 65535 && Wrap16(WindowRequested(text)) == WindowRequested(text)
  {
    hide ParsePairs, DecodePairs, Strtoul;
    var ps := DecodePairs(text, 0);
    ParsedWithin(ps, WINDOWSIZE, 1, 65535);
    InactiveNumber(ParsePairs(NONE, ps)[WINDOWSIZE], DEFAULT_WINDOW);
    hide Number;
    SmallNumber(WindowRequested(text));
  }

  /** Whatever the option text of a request, from any client: block size and
      time-out of the server are in the ranges of RFC 2348 and RFC 2349, and so
      is its window in that of RFC 7440, as requested, unless the size of the
      file was printed over it. */
  lemma AnyRequestWithinRange(env: Env, text: string)
    requires SizeFits(env)
    ensures var s := ParseRequested(env, text);
            && 8 <= s.blockSize <= 65464
            && (s.timeout == env.timeout || 1 <= s.timeout <= 255)
            && (s.adaptive ==> env.adaptive)
            && 1 <= WindowRequested(text) <= 65535
            && s.windowSize == if PrintedOver(env, text, WINDOWSIZE) then Wrap16(Decimal(DigitsOver(env, text, WINDOWSIZE)))
                               else WindowRequested(text)
  {
    hide ParsePairs, DecodePairs, ApplyFirst, Number, AsksAdaptive, EqualNoCase, Print, AnyPresent, Recognized,
      TextAfter, RefsAfter, Token, PrintedOver, ReadAll, DigitsOver, ReadRef, Wrap16, Wrap8, NamesAdaptive;
    var ps := DecodePairs(text, 0);
    var refs := Recognized(env, text);
    LoopDecides(env, text, refs, env.adaptive && AsksAdaptive(ps));
    BlockSizeWithin(env, text);
    TimeoutWithin(env, text);
    WindowRead(env, text);
    WindowWithin(text);
  }

  /** So the window is in range if and only if the size is not printed over the
      recorded window, or its digits there do not make a multiple of 65536. */
  lemma WindowInRangeIff(env: Env, text: string)
    requires SizeFits(env)
    ensures ParseRequested(env, text).windowSize >= 1 <==>
              PrintedOver(env, text, WINDOWSIZE) ==> Decimal(DigitsOver(env, text, WINDOWSIZE)) % WRAP != 0
  {
    AnyRequestWithinRange(env, text);
    hide ParseRequested, PrintedOver, DigitsOver, Decimal;
  }

  // ------------------------------------------------------------- the report

  /** The printed size is longer than the value it replaces. */
  predicate RunsOver(env: Env, text: string)
  {
    var refs := Recognized(env, text);
    env.fileSize.Some? && refs[TSIZE].InText? && |Print(env.fileSize.value)| > |Token(text, refs[TSIZE].pos)|
  }

  /** The number reported for option `o` is the one in use although the size
      was printed over its value. The window is read after the size is printed,
      into 16 bits; block size and time-out are read before. */
  predicate SameNumber(env: Env, text: string, o: nat)
    requires o < TOTAL && PrintedOver(env, text, o)
  {
    var n := Decimal(DigitsOver(env, text, o));
    if o == WINDOWSIZE then n < WRAP else n == Number(ReadRef(text, Recognized(env, text)[o]), 0)
  }

  predicate Unspoilt(env: Env, text: string, o: nat)
    requires o < TOTAL
  {
    PrintedOver(env, text, o) ==> SameNumber(env, text, o)
  }

  /** The OACK shows the parameters in use. */
  predicate Reports(env: Env, s: Server)
    requires |s.recognized| == TOTAL
  {
    && Number(Shown(s)[BLKSIZE], DEFAULT_BLKSIZE) == s.blockSize
    && Number(Shown(s)[WINDOWSIZE], DEFAULT_WINDOW) == s.windowSize
    && (s.adaptive <==> NamesAdaptive(Shown(s)[TIMEOUT]))
    && (!s.adaptive ==> Number(Shown(s)[TIMEOUT], env.timeout) == s.timeout)
  }

  /** What the OACK shows for an option other than the size. */
  lemma ShownIs(env: Env, text: string, o: nat)
    requires SizeFits(env) && o < TOTAL && o != TSIZE
    ensures var refs := Recognized(env, text);
            Shown(ParseRequested(env, text))[o] == ReadRef(TextAfter(env, text, refs), refs[o])
    ensures ParseRequested(env, text) == Decided(env, text, Recognized(env, text),
                                                 env.adaptive && AsksAdaptive(DecodePairs(text, 0)))
  {
    hide Recognized, DecodePairs, AsksAdaptive, ApplyFirst, ReadRef, TextAfter, AnyPresent, Number, EqualNoCase;
    LoopDecides(env, text, Recognized(env, text), env.adaptive && AsksAdaptive(DecodePairs(text, 0)));
    var s := ParseRequested(env, text);
    ReadAt(s.text, s.recognized, o);
  }

  lemma OverIsActive(env: Env, text: string, o: nat)
    requires o < TOTAL
    ensures PrintedOver(env, text, o) ==> ReadRef(text, Recognized(env, text)[o]).Active?
  {
    hide Recognized, Print, Token;
  }

  lemma BlockSizeReported(env: Env, text: string)
    requires SizeFits(env)
    ensures var s := ParseRequested(env, text);
            Number(Shown(s)[BLKSIZE], DEFAULT_BLKSIZE) == s.blockSize <==> Unspoilt(env, text, BLKSIZE)
  {
    hide ParsePairs, DecodePairs, ParseRequested, AsksAdaptive, AnyPresent, Recognized, TextAfter, Shown, ReadRef,
      ReadAll, Strtoul, PrintedOver, DigitsOver, Decimal, NamesAdaptive;
    var opt := ReadRef(text, Recognized(env, text)[BLKSIZE]);
    ShownIs(env, text, BLKSIZE);
    ReadAfterPrint(env, text, BLKSIZE);
    ParsedWithin(DecodePairs(text, 0), BLKSIZE, 8, 65464);
    RecognizedReads(env, text);
    ReadAt(text, Recognized(env, text), BLKSIZE);
    OverIsActive(env, text, BLKSIZE);
    SmallNumber(Number(opt, DEFAULT_BLKSIZE));
  }

  lemma SmallTimeout(n: nat)
    ensures n <= 255 ==> Wrap8(n) == n
  {
  }

  lemma DigitsAreNotAdaptive(d: string)
    requires AllDigits(d)
    ensures !EqualNoCase(d, ADAPTIVE)
  {
    if |d| == |ADAPTIVE| {
      assert IsDigit(d[0]) && Lower(ADAPTIVE[0]) == 'a';
    }
  }

  /** A time-out that is recorded as "adaptive" is not in the text. */
  lemma AdaptiveIsOwn(env: Env, text: string)
    ensures env.adaptive && AsksAdaptive(DecodePairs(text, 0)) ==> !PrintedOver(env, text, TIMEOUT)
  {
    hide DecodePairs, AsksAdaptive, Locate, Print;
  }

  lemma TimeoutReported(env: Env, text: string)
    requires SizeFits(env)
    ensures var s := ParseRequested(env, text);
            && (s.adaptive <==> NamesAdaptive(Shown(s)[TIMEOUT]))
            && ((!s.adaptive ==> Number(Shown(s)[TIMEOUT], env.timeout) == s.timeout) <==> Unspoilt(env, text, TIMEOUT))
  {
    hide ParsePairs, DecodePairs, ParseRequested, AsksAdaptive, AnyPresent, Recognized, TextAfter, Shown, ReadRef,
      ReadAll, Strtoul, PrintedOver, DigitsOver, Decimal, EqualNoCase;
    var ps, opt := DecodePairs(text, 0), ReadRef(text, Recognized(env, text)[TIMEOUT]);
    ShownIs(env, text, TIMEOUT);
    ReadAfterPrint(env, text, TIMEOUT);
    ParsedWithin(ps, TIMEOUT, 1, 255);
    RecognizedReads(env, text);
    ReadAt(text, Recognized(env, text), TIMEOUT);
    NumericIsNotAdaptive(ps);
    AdaptiveIsNoNumber();
    OverIsActive(env, text, TIMEOUT);
    AdaptiveIsOwn(env, text);
    SmallTimeout(Number(opt, env.timeout));
    if PrintedOver(env, text, TIMEOUT) {
      DigitsAreNotAdaptive(DigitsOver(env, text, TIMEOUT));
    }
  }

  lemma WindowReported(env: Env, text: string)
    requires SizeFits(env)
    ensures var s := ParseRequested(env, text);
            Number(Shown(s)[WINDOWSIZE], DEFAULT_WINDOW) == s.windowSize <==> Unspoilt(env, text, WINDOWSIZE)
  {
    hide ParsePairs, DecodePairs, ParseRequested, AsksAdaptive, AnyPresent, Recognized, TextAfter, Shown, ReadRef,
      ReadAll, Number, PrintedOver, DigitsOver, Decimal, NamesAdaptive;
    ShownIs(env, text, WINDOWSIZE);
    WindowRead(env, text);
    WindowWithin(text);
    hide WindowRequested;
  }

  /** The OACK reports the parameters in use if and only if the size is printed
      over none of their values, or leaves the same number there. */
  lemma OackReportsIff(env: Env, text: string)
    requires SizeFits(env)
    ensures Reports(env, ParseRequested(env, text)) <==>
              Unspoilt(env, text, BLKSIZE) && Unspoilt(env, text, TIMEOUT) && Unspoilt(env, text, WINDOWSIZE)
  {
    hide ParseRequested, Unspoilt, Number, Shown, NamesAdaptive;
    BlockSizeReported(env, text);
    TimeoutReported(env, text);
    WindowReported(env, text);
  }

  lemma NotOver(env: Env, text: string, o: nat)
    requires !RunsOver(env, text) && o < TOTAL && o != TSIZE
    ensures !PrintedOver(env, text, o)
  {
    hide Recognized, Token, Print, Apart;
    RecognizedPlaces(env, text);
    var refs := Recognized(env, text);
    if refs[TSIZE].InText? && refs[o].InText? {
      SizeApart(text, refs, o);
    }
  }

  lemma SizeShown(env: Env, text: string)
    requires SizeFits(env)
    ensures var s := ParseRequested(env, text);
            Shown(s)[TSIZE].Active? ==> env.fileSize.Some? && Shown(s)[TSIZE] == Active(Print(env.fileSize.value))
  {
    hide Recognized, DecodePairs, AsksAdaptive, ApplyFirst, Token, Overwrite, AnyPresent, Number, EqualNoCase, Apart, Print;
    var refs := Recognized(env, text);
    LoopDecides(env, text, refs, env.adaptive && AsksAdaptive(DecodePairs(text, 0)));
    RecognizedPlaces(env, text);
    var s := ParseRequested(env, text);
    ReadAt(s.text, s.recognized, TSIZE);
    if PrintsInText(env, text, refs) {
      PrintRoundTrip(env.fileSize.value);
      TokenAfterPrint(text, refs[TSIZE].pos, Print(env.fileSize.value), refs[TSIZE].pos);
    }
  }

  /** If the size fits its place it is printed over nothing, and is shown itself. */
  lemma OackReportsParameters(env: Env, text: string)
    requires SizeFits(env) && !RunsOver(env, text)
    ensures Reports(env, ParseRequested(env, text))
    ensures var s := ParseRequested(env, text);
            Shown(s)[TSIZE].Active? ==> env.fileSize.Some? && Shown(s)[TSIZE] == Active(Print(env.fileSize.value))
  {
    hide ParseRequested, Reports, RunsOver, PrintedOver, SameNumber;
    SizeShown(env, text);
    OackReportsIff(env, text);
    NotOver(env, text, BLKSIZE);
    NotOver(env, text, TIMEOUT);
    NotOver(env, text, WINDOWSIZE);
  }

  // --------------------------------------------------- a window that is lost

  /** A request for a size other than "0" and for a window of 4. */
  const SIZE_THEN_WINDOW: seq<Pair> := [("tsize", "5"), ("windowsize", "4")]

  lemma SizeThenWindowPlaces()
    ensures var text := EncodePairs(SIZE_THEN_WINDOW);
            && |text| == 21
            && Token(text, 0) == "tsize" && Token(text, 6) == "5"
            && Token(text, 8) == "windowsize" && Token(text, 19) == "4"
  {
    hide Token;
    var a, b := EncodePair(("tsize", "5")), EncodePair(("windowsize", "4"));
    assert SIZE_THEN_WINDOW[1..] == [("windowsize", "4")];
    assert EncodePairs([("windowsize", "4")]) == b by { assert [("windowsize", "4")][1..] == []; }
    assert EncodePairs(SIZE_THEN_WINDOW) == a + b;
    assert |a| == 8 && |b| == 13;
    assert NulFree("tsize") && NulFree("5") && NulFree("windowsize") && NulFree("4");
    TokensOfPair("", "tsize", "5", b);
    assert "" + a + b == a + b;
    TokensOfPair(a, "windowsize", "4", "");
    assert a + b + "" == a + b;
  }

  lemma NameFound(o: nat)
    requires o < TOTAL
    ensures FindName(NAMES[o], 0) == o
  {
    hide EqualNoCase, FindName;
    EqualNoCaseReflexive(NAMES[o]);
    NamesDiffer(NAMES[o], o, if FindName(NAMES[o], 0) < TOTAL then FindName(NAMES[o], 0) else o);
  }

  /** A single digit is valid for both options, and recorded where it stands. */
  lemma DigitRecorded(d: nat, v: nat)
    requires 1 <= d <= 9 && d != 0
    ensures Print(d) == [('0' as int + d) as char]
    ensures ValidValue(TSIZE, Print(d)) && RefFor(TSIZE, Print(d), v) == InText(v)
    ensures ValidValue(WINDOWSIZE, Print(d)) && RefFor(WINDOWSIZE, Print(d), v) == InText(v)
  {
    hide Strtoul, SkipSpaceAndPlus;
    PrintRoundTrip(d);
  }

  lemma SizeThenWindowLocated()
    ensures var text := EncodePairs(SIZE_THEN_WINDOW);
            Locate(text, 0, NOWHERE) == [Missing, Missing, InText(6), InText(19), Missing]
  {
    hide Token, FindName, ValidValue, RefFor;
    var text := EncodePairs(SIZE_THEN_WINDOW);
    SizeThenWindowPlaces();
    NameFound(TSIZE);
    NameFound(WINDOWSIZE);
    DigitRecorded(5, 6);
    DigitRecorded(4, 19);
    assert Print(5) == "5" && Print(4) == "4";
    var first := LocatePair(NOWHERE, "tsize", "5", 6);
    assert first == [Missing, Missing, InText(6), Missing, Missing];
    assert Locate(text, 0, NOWHERE) == Locate(text, 8, first);
    assert Locate(text, 8, first) == Locate(text, 21, LocatePair(first, "windowsize", "4", 19));
  }

  lemma SizeThenWindowRecognized(env: Env)
    ensures var text := EncodePairs(SIZE_THEN_WINDOW);
            Recognized(env, text) == [Missing, Missing, InText(6), InText(19), Missing]
  {
    hide Locate, DecodePairs, EncodePairs;
    SizeThenWindowLocated();
    DecodeEncode("", SIZE_THEN_WINDOW);
    assert "" + EncodePairs(SIZE_THEN_WINDOW) == EncodePairs(SIZE_THEN_WINDOW);
    assert forall i :: 0 <= i < 2 ==> |SIZE_THEN_WINDOW[i].0| != |NAMES[TIMEOUT]|;
  }

  /** With this request and any file whose size has 13 digits, the terminator of
      the printed size replaces the 4: the server continues with a window of 0. */
  lemma ThirteenDigitsLoseTheWindow(env: Env)
    requires SizeFits(env) && env.fileSize.Some? && |Print(env.fileSize.value)| == 13
    ensures var text := EncodePairs(SIZE_THEN_WINDOW);
            && PrintedOver(env, text, WINDOWSIZE) && DigitsOver(env, text, WINDOWSIZE) == ""
            && ParseRequested(env, text).windowSize == 0
  {
    hide ParseRequested, Recognized, Print, EncodePairs;
    SizeThenWindowRecognized(env);
    AnyRequestWithinRange(env, EncodePairs(SIZE_THEN_WINDOW));
  }

  function Pow10(k: nat): (n: nat)
    ensures n > 0
  {
    if k == 0 then 1 else 10 * Pow10(k - 1)
  }

  lemma {:induction false} DigitsOfPow10(k: nat)
    ensures |Print(Pow10(k))| == k + 1
  {
    if k > 0 {
      DigitsOfPow10(k - 1);
      assert Pow10(k) / 10 == Pow10(k - 1);
    }
  }

  /** There are such files: 10^12 has 13 digits. */
  lemma ThirteenDigitsExist()
    ensures |Print(1_000_000_000_000)| == 13
  {
    DigitsOfPow10(12);
    hide Print;
    assert Pow10(3) == 1000;
    assert Pow10(6) == 1_000_000;
    assert Pow10(9) == 1_000_000_000;
    assert Pow10(12) == 1_000_000_000_000;
  }
}
