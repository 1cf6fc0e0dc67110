/**
 Both ends of a negotiation reach the same parameters.
 */
module Agreement {
  import opened BlockNumbers
  import opened CStrings
  import opened Options
  import opened Packets
  import opened Requests
  import opened Session
  import opened Negotiation
  import opened OptionText
  import opened ServerLoop

  /** Option text of the request, empty when there are no options. */
  function RequestOptions(c: Client): (t: string)
    requires |c.options| == TOTAL
  {
    EncodePairs(ActivePairs(c.options, TOTAL))
  }

  function ServerOf(request: RequestType, co: ClientOptions, env: Env): (s: Server)
    ensures |s.recognized| == TOTAL
  {
    ParseRequested(env, RequestOptions(OptionsInit(request, Some(co))))
  }

  // ----------------------------------------------------------- the values

  lemma DirectoryIsValid()
    ensures ValidValue(READ_TYPE, "directory") && StoredValue(READ_TYPE, "directory") == "directory"
    ensures NulFree("directory")
  {
  }

  // ------------------------------------------------------ adaptive timeout

  lemma OneMore(ps: seq<Pair>, p: Pair)
    ensures AsksAdaptive(ps + [p]) <==> AsksAdaptive(ps) || IsAdaptive(p)
  {
    hide IsAdaptive;
    var all := ps + [p];
    assert all[|ps|] == p;
    if AsksAdaptive(ps) {
      var i :| 0 <= i < |ps| && IsAdaptive(ps[i]);
      assert all[i] == ps[i];
    }
    if AsksAdaptive(all) && !IsAdaptive(p) {
      var i :| 0 <= i < |all| && IsAdaptive(all[i]);
      assert ps[i] == all[i];
    }
  }

  lemma {:induction false} AdaptiveIn(opts: seq<Opt>, n: nat)
    requires n <= |opts| == TOTAL
    ensures AsksAdaptive(ActivePairs(opts, n)) <==>
              n > TIMEOUT && opts[TIMEOUT].Active? && EqualNoCase(opts[TIMEOUT].value, ADAPTIVE)
  {
    hide EqualNoCase;
    if n > 0 {
      AdaptiveIn(opts, n - 1);
      var before, now := ActivePairs(opts, n - 1), ActivePairs(opts, n);
      EqualNoCaseReflexive(NAMES[n - 1]);
      if n - 1 != TIMEOUT && EqualNoCase(NAMES[n - 1], NAMES[TIMEOUT]) {
        NamesDiffer(NAMES[n - 1], n - 1, TIMEOUT);
      }
      if opts[n - 1].Active? {
        assert now == before + [(NAMES[n - 1], opts[n - 1].value)];
        assert IsAdaptive(now[|now| - 1]) <==> n - 1 == TIMEOUT && EqualNoCase(opts[n - 1].value, ADAPTIVE);
        OneMore(before, now[|now| - 1]);
      } else {
        assert now == before;
      }
      hide AsksAdaptive, ActivePairs;
    }
  }

  // ------------------------------------------------- what the server sees

  /** The options a request of this client activates at the server. */
  function Seen(request: RequestType, co: ClientOptions, env: Env): (opts: seq<Opt>)
    ensures |opts| == TOTAL
  {
    var asked := RequestedOptions(request, co);
    [ asked[BLKSIZE],
      if AsksForAdaptive(request, co) && !env.adaptive then Inactive else asked[TIMEOUT],
      OptionIf(co.useTsize, ""),
      asked[WINDOWSIZE],
      OptionIf(co.isList && env.list, "directory") ]
  }

  lemma RequestedValid(request: RequestType, co: ClientOptions, o: nat)
    requires o < TOTAL
    ensures var opt := RequestedOptions(request, co)[o];
            opt.Active? ==>
              && NulFree(opt.value) && opt.value != ""
              && (ValidValue(o, opt.value) <==> !(o == TIMEOUT && AsksForAdaptive(request, co)))
              && (ValidValue(o, opt.value) && o != TSIZE ==> StoredValue(o, opt.value) == opt.value)
  {
    hide Strtoul, SkipSpaceAndPlus, Print;
    if o == BLKSIZE && AsksBlockSize(co) {
      PrintedNumber(co.blockSize.value, 8, 65464);
    } else if o == TIMEOUT && AsksForAdaptive(request, co) {
      AdaptiveIsNoNumber();
    } else if o == TIMEOUT && AsksTimeout(co) {
      PrintedNumber(co.timeout.value, 1, 255);
    } else if o == WINDOWSIZE && AsksWindow(request, co) {
      PrintedNumber(co.windowSize.value, 1, 65535);
    } else if o == READ_TYPE {
      DirectoryIsValid();
    }
  }

  lemma TimeoutIsAdaptive(request: RequestType, co: ClientOptions)
    ensures var opt := RequestedOptions(request, co)[TIMEOUT];
            opt.Active? && EqualNoCase(opt.value, ADAPTIVE) <==> AsksForAdaptive(request, co)
  {
    hide Strtoul, Print, NumberWithin;
    AdaptiveIsNoNumber();
    if AsksTimeout(co) {
      PrintedNumber(co.timeout.value, 1, 255);
    }
  }

  /** What the parser makes of the request, before the server's settings. */
  function Parsed(request: RequestType, co: ClientOptions): (opts: seq<Opt>)
    ensures |opts| == TOTAL
  {
    Seen(request, co, Env(false, true, 0, None))
  }

  lemma ParsedAt(request: RequestType, co: ClientOptions, o: nat)
    requires o < TOTAL
    ensures var opt := RequestedOptions(request, co)[o];
            Parsed(request, co)[o] == if opt.Active? && ValidValue(o, opt.value)
                                      then Active(StoredValue(o, opt.value)) else Inactive
  {
    hide Strtoul, Print, EqualNoCase, NumberWithin;
    RequestedValid(request, co, o);
    hide ValidValue, NulFree, SkipSpaceAndPlus, AsksForAdaptive, AsksTimeout, AsksBlockSize, AsksWindow;
  }

  /** Printed options are decoded to themselves and parsed one by one. */
  lemma DecodedOptions(opts: seq<Opt>)
    requires |opts| == TOTAL
    requires forall o :: 0 <= o < TOTAL && opts[o].Active? ==> NulFree(opts[o].value) && opts[o].value != ""
    ensures var text := EncodePairs(ActivePairs(opts, TOTAL));
            && DecodePairs(text, 0) == ActivePairs(opts, TOTAL)
            && Echoes(ParsePairs(NONE, DecodePairs(text, 0)), opts)
  {
    hide ParsePairs, DecodePairs, EncodePairs, ActivePairs, Echoes, NulFree;
    ActivePairsNulFree(opts, TOTAL);
    OptionsRoundTrip(opts);
    DecodeEncode("", ActivePairs(opts, TOTAL));
    assert "" + EncodePairs(ActivePairs(opts, TOTAL)) == EncodePairs(ActivePairs(opts, TOTAL));
  }

  lemma ParsedRequest(request: RequestType, co: ClientOptions)
    ensures var text := RequestOptions(OptionsInit(request, Some(co)));
            && ParsePairs(NONE, DecodePairs(text, 0)) == Parsed(request, co)
            && DecodePairs(text, 0) == ActivePairs(RequestedOptions(request, co), TOTAL)
  {
    hide ParsePairs, DecodePairs, EncodePairs, ActivePairs, ValidValue, StoredValue, NulFree, RequestedOptions, Parsed;
    var opts := RequestedOptions(request, co);
    forall o | 0 <= o < TOTAL && opts[o].Active?
      ensures NulFree(opts[o].value) && opts[o].value != ""
    {
      RequestedValid(request, co, o);
    }
    DecodedOptions(opts);
    forall o | 0 <= o < TOTAL
      ensures ParsePairs(NONE, DecodePairs(EncodePairs(ActivePairs(opts, TOTAL)), 0))[o] == Parsed(request, co)[o]
    {
      ParsedAt(request, co, o);
    }
  }

  lemma ServerSees(request: RequestType, co: ClientOptions, env: Env)
    ensures var text := RequestOptions(OptionsInit(request, Some(co)));
            && ReadAll(text, Recognized(env, text)) == Seen(request, co, env)
            && !Recognized(env, text)[TSIZE].InText?
            && (AsksAdaptive(DecodePairs(text, 0)) <==> AsksForAdaptive(request, co))
  {
    hide ParsePairs, DecodePairs, EncodePairs, ActivePairs, RequestOptions, EqualNoCase, Print, Recognized,
      AsksAdaptive, AsksTimeout, AsksBlockSize, AsksWindow, ReadAll, Token;
    var text := RequestOptions(OptionsInit(request, Some(co)));
    ParsedRequest(request, co);
    AdaptiveIn(RequestedOptions(request, co), TOTAL);
    TimeoutIsAdaptive(request, co);
    RecognizedReads(env, text);
    RecognizedPlaces(env, text);
    ReadAt(text, Recognized(env, text), TSIZE);
    hide Placed;
  }

  // -------------------------------------------------- what the server does

  /** The options the server acknowledges. */
  function Granted(request: RequestType, co: ClientOptions, env: Env): (opts: seq<Opt>)
    ensures |opts| == TOTAL
  {
    Seen(request, co, env)[TSIZE := if co.useTsize && env.fileSize.Some? then Active(Print(env.fileSize.value)) else Inactive]
  }

  function BlockSizeAsked(co: ClientOptions): (n: uint16)
  {
    if AsksBlockSize(co) then co.blockSize.value else DEFAULT_BLKSIZE
  }

  function WindowAsked(request: RequestType, co: ClientOptions): (n: uint16)
  {
    if AsksWindow(request, co) then co.windowSize.value else DEFAULT_WINDOW
  }

  function TimeoutAsked(co: ClientOptions, otherwise: uint8): (n: uint8)
  {
    if AsksTimeout(co) then co.timeout.value else otherwise
  }

  /** The numbers in a request are those the client was given. */
  lemma AskedNumbers(request: RequestType, co: ClientOptions, timeout: uint8)
    ensures var asked := RequestedOptions(request, co);
            && Number(asked[BLKSIZE], DEFAULT_BLKSIZE) == BlockSizeAsked(co)
            && Number(asked[WINDOWSIZE], DEFAULT_WINDOW) == WindowAsked(request, co)
            && (!AsksForAdaptive(request, co) ==> Number(asked[TIMEOUT], timeout) == TimeoutAsked(co, timeout))
  {
    hide Strtoul, Print, EqualNoCase, NumberWithin, NulFree, SkipSpaceAndPlus;
    if AsksBlockSize(co) {
      PrintedNumber(co.blockSize.value, 8, 65464);
    }
    if AsksWindow(request, co) {
      PrintedNumber(co.windowSize.value, 1, 65535);
    }
    if AsksTimeout(co) {
      PrintedNumber(co.timeout.value, 1, 255);
    }
  }

  /** With a size that has a buffer of its own, nothing but the size changes. */
  lemma OnlySizeChanges(env: Env, text: string, refs: seq<Ref>)
    requires |refs| == TOTAL && !refs[TSIZE].InText?
    ensures TextAfter(env, text, refs) == text
    ensures ReadAll(text, RefsAfter(env, refs)) ==
              ReadAll(text, refs)[TSIZE := if !refs[TSIZE].Missing? && env.fileSize.Some?
                                           then Active(Print(env.fileSize.value)) else Inactive]
    ensures AnyPresent(refs) <==> AnyActive(ReadAll(text, refs))
  {
    hide Token, Print;
    assert forall o :: 0 <= o < TOTAL ==> (refs[o].Missing? <==> ReadAll(text, refs)[o].Inactive?);
  }

  lemma SeenSize(request: RequestType, co: ClientOptions, env: Env)
    ensures Seen(request, co, env)[TSIZE].Active? <==> co.useTsize
  {
  }

  /** An adaptive time-out, granted or not, leaves the server's own. */
  lemma AdaptiveKeepsTimeout(request: RequestType, co: ClientOptions, env: Env)
    requires AsksForAdaptive(request, co)
    ensures var opt := Seen(request, co, env)[TIMEOUT]; NamesAdaptive(opt) || Wrap8(Number(opt, env.timeout)) == env.timeout
  {
    hide Strtoul, Print, EqualNoCase;
    TimeoutIsAdaptive(request, co);
  }

  /** What the server makes of a request of this client. */
  lemma ServerDecides(request: RequestType, co: ClientOptions, env: Env)
    ensures var s := ServerOf(request, co, env);
            && Shown(s) == Granted(request, co, env)
            && s.required == AnyActive(Seen(request, co, env))
            && s.blockSize == BlockSizeAsked(co)
            && s.windowSize == WindowAsked(request, co)
            && s.adaptive == (AsksForAdaptive(request, co) && env.adaptive)
            && s.timeout == (if AsksForAdaptive(request, co) then env.timeout else TimeoutAsked(co, env.timeout))
  {
    hide Strtoul, Print, EqualNoCase, Recognized, AsksAdaptive, DecodePairs, RequestOptions, ApplyFirst, Token,
      Number, AnyActive, AnyPresent, RequestedOptions, BlockSizeAsked, WindowAsked, TimeoutAsked, TextAfter, RefsAfter;
    var text := RequestOptions(OptionsInit(request, Some(co)));
    var refs := Recognized(env, text);
    ServerSees(request, co, env);
    LoopDecides(env, text, refs, AsksForAdaptive(request, co) && env.adaptive);
    OnlySizeChanges(env, text, refs);
    AskedNumbers(request, co, env.timeout);
    TimeoutIsAdaptive(request, co);
    SeenSize(request, co, env);
    if AsksForAdaptive(request, co) {
      AdaptiveKeepsTimeout(request, co, env);
    }
    hide AsksForAdaptive;
  }

  // ---------------------------------------------- what the client is told

  lemma GrantedValid(request: RequestType, co: ClientOptions, env: Env, o: nat)
    requires o < TOTAL && SizeFits(env)
    ensures var opt := Granted(request, co, env)[o];
            opt.Active? ==>
              && NulFree(opt.value) && opt.value != ""
              && (ValidValue(o, opt.value) <==> !(o == TIMEOUT && AsksForAdaptive(request, co)))
              && (ValidValue(o, opt.value) && o != TSIZE ==> StoredValue(o, opt.value) == opt.value)
  {
    hide Strtoul, SkipSpaceAndPlus, Print, NumberWithin, EqualNoCase, NulFree, AsksForAdaptive, AsksTimeout;
    RequestedValid(request, co, o);
    if o == TSIZE && env.fileSize.Some? {
      PrintedSize(env.fileSize.value);
      hide ValidValue;
    } else if o == READ_TYPE {
      DirectoryIsValid();
    }
  }

  /** What the client finds in the OACK. */
  function Told(request: RequestType, co: ClientOptions, env: Env): (opts: seq<Opt>)
    ensures |opts| == TOTAL
  {
    var g := Granted(request, co, env);
    if g[TSIZE].Active? then g[TSIZE := Active(StoredValue(TSIZE, g[TSIZE].value))] else g
  }

  lemma ClientTold(request: RequestType, co: ClientOptions, env: Env)
    requires SizeFits(env)
    ensures var c, values := OptionsInit(request, Some(co)), OackText(ServerOf(request, co, env));
            && Acknowledged(c, values) == Told(request, co, env)
            && (request == Read && co.useAdaptive ==> (AsksAdaptive(DecodePairs(values, 0)) <==> env.adaptive))
  {
    hide ParsePairs, DecodePairs, EncodePairs, ActivePairs, ServerOf, Strtoul, Print, EqualNoCase,
      ValidValue, StoredValue, NulFree, AsksAdaptive, NumberWithin, Shown;
    ServerDecides(request, co, env);
    var g := Granted(request, co, env);
    forall o | 0 <= o < TOTAL
      ensures g[o].Active? ==>
                && NulFree(g[o].value) && g[o].value != ""
                && (ValidValue(o, g[o].value) <==> !(o == TIMEOUT && AsksForAdaptive(request, co)))
                && (ValidValue(o, g[o].value) && o != TSIZE ==> StoredValue(o, g[o].value) == g[o].value)
    {
      GrantedValid(request, co, env, o);
    }
    DecodedOptions(g);
    AdaptiveIn(g, TOTAL);
    TimeoutIsAdaptive(request, co);
    hide AsksTimeout, AsksBlockSize, AsksWindow;
  }

  lemma ToldNumbers(request: RequestType, co: ClientOptions, env: Env)
    requires SizeFits(env)
    ensures var told := Told(request, co, env);
            && Number(told[BLKSIZE], BlockSizeAsked(co)) == BlockSizeAsked(co)
            && Number(told[WINDOWSIZE], WindowAsked(request, co)) == WindowAsked(request, co)
            && (!AsksForAdaptive(request, co) ==>
                  Number(told[TIMEOUT], TimeoutAsked(co, DEFAULT_TIMEOUT)) == TimeoutAsked(co, DEFAULT_TIMEOUT))
            && Number(told[TSIZE], 0) == if co.useTsize && env.fileSize.Some? then env.fileSize.value else 0
  {
    hide Strtoul, Print, EqualNoCase, NumberWithin, NulFree, StoredValue, ValidValue;
    AskedNumbers(request, co, DEFAULT_TIMEOUT);
    if env.fileSize.Some? {
      PrintedSize(env.fileSize.value);
    }
  }

  // --------------------------------------------------------------- results

  /** What the client continues with after the OACK of this server. */
  predicate Agreed(c: Client, s: Server, env: Env)
    requires |c.options| == |s.recognized| == TOTAL
  {
    var shown := Shown(s);
    && c.blockSize == s.blockSize
    && c.windowSize == s.windowSize
    && (shown[TIMEOUT].Active? && s.adaptive ==> c.useAdaptive)
    && (shown[TIMEOUT].Active? && !s.adaptive ==> c.timeout == s.timeout)
    && (c.options[READ_TYPE].Active? <==> shown[READ_TYPE].Active?)
    && c.tsize == (if shown[TSIZE].Active? && env.fileSize.Some? then env.fileSize.value else 0)
  }

  lemma OnlyRequested(request: RequestType, co: ClientOptions, env: Env)
    ensures var c := OptionsInit(request, Some(co));
            && !Unrequested(c, Granted(request, co, env))
            && !Unrequested(c, Told(request, co, env))
            && (Told(request, co, env)[READ_TYPE].Active? <==> Granted(request, co, env)[READ_TYPE].Active?)
            && (Granted(request, co, env)[READ_TYPE].Active? ==> c.options[READ_TYPE].Active?)
            && (Granted(request, co, env)[TSIZE].Active? <==> co.useTsize && env.fileSize.Some?)
            && (Granted(request, co, env)[TIMEOUT].Active? ==> AsksTimeout(co) || (AsksForAdaptive(request, co) && env.adaptive))
  {
    hide Print, StoredValue, EqualNoCase;
  }

  lemma SeenIsAsked(request: RequestType, co: ClientOptions, env: Env)
    ensures AnyActive(Seen(request, co, env)) ==> OptionsInit(request, Some(co)).useOptions
  {
    hide Print, EqualNoCase;
    var seen, asked := Seen(request, co, env), RequestedOptions(request, co);
    if AnyActive(seen) {
      var o :| 0 <= o < TOTAL && seen[o].Active?;
      assert asked[o].Active?;
    }
  }

  lemma NothingSeen(request: RequestType, co: ClientOptions, env: Env)
    ensures !AnyActive(Seen(request, co, env)) ==>
              !AsksBlockSize(co) && !AsksWindow(request, co) && !(AsksForAdaptive(request, co) && env.adaptive)
  {
    hide Print, EqualNoCase;
    var seen := Seen(request, co, env);
    assert seen[BLKSIZE].Active? <==> AsksBlockSize(co);
    assert seen[WINDOWSIZE].Active? <==> AsksWindow(request, co);
    assert seen[TIMEOUT].Active? <== AsksForAdaptive(request, co) && env.adaptive;
  }

  /** RFC 2347: the server acknowledges only options that were requested; the
      client accepts its OACK, and both ends continue with the same block size,
      window size and, if acknowledged, time-out; if the server recognises
      nothing, its own values are the defaults of RFC 1350. */
  lemma NegotiationAgrees(request: RequestType, co: ClientOptions, env: Env)
    requires SizeFits(env)
    ensures var c, s := OptionsInit(request, Some(co)), ServerOf(request, co, env);
            && !Unrequested(c, Shown(s))
            && HandleOack(c, OackText(s)).Some?
            && Agreed(HandleOack(c, OackText(s)).value, s, env)
            && (s.required ==> c.useOptions)
            && (!s.required ==> s.blockSize == DEFAULT_BLKSIZE && s.windowSize == DEFAULT_WINDOW && !s.adaptive)
  {
    hide ServerOf, OackText, DecodePairs, Acknowledged, AsksAdaptive, Number, Print, StoredValue, Shown;
    ServerDecides(request, co, env);
    ClientTold(request, co, env);
    ToldNumbers(request, co, env);
    OnlyRequested(request, co, env);
    SeenIsAsked(request, co, env);
    NothingSeen(request, co, env);
    hide Granted, Told, AnyActive;
  }
}
