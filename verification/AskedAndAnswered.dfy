/**
 A negotiation in the words of the protocol: which names and values a request
 and its OACK hold, and which parameters both ends use, for every set of options
 the user may give.
 */
module AskedAndAnswered {
  import opened BlockNumbers
  import opened CStrings
  import opened Options
  import opened OptionText
  import opened Packets
  import opened Requests
  import opened Session
  import opened Negotiation
  import opened ServerLoop
  import opened Agreement

  lemma {:induction false} ActiveIn(opts: seq<Opt>, n: nat, o: nat)
    requires n <= |opts| == TOTAL && o < TOTAL
    ensures forall v :: (NAMES[o], v) in ActivePairs(opts, n) <==> o < n && opts[o] == Active(v)
  {
    if n > 0 {
      ActiveIn(opts, n - 1, o);
      if n - 1 != o && NAMES[n - 1] == NAMES[o] {
        EqualNoCaseReflexive(NAMES[o]);
        NamesDiffer(NAMES[o], o, n - 1);
      }
      hide EqualNoCase;
      assert ActivePairs(opts, n) ==
        ActivePairs(opts, n - 1) + if opts[n - 1].Active? then [(NAMES[n - 1], opts[n - 1].value)] else [];
    }
  }

  /** The pairs a request of this client holds. */
  function Asked(request: RequestType, co: ClientOptions): (ps: seq<Pair>)
  {
    DecodePairs(RequestOptions(OptionsInit(request, Some(co))), 0)
  }

  /** And those of the OACK of this server. */
  function Answered(request: RequestType, co: ClientOptions, env: Env): (ps: seq<Pair>)
  {
    DecodePairs(OackText(ServerOf(request, co, env)), 0)
  }

  lemma AskedIs(request: RequestType, co: ClientOptions, o: nat)
    requires o < TOTAL
    ensures forall v :: (NAMES[o], v) in Asked(request, co) <==> RequestedOptions(request, co)[o] == Active(v)
  {
    hide DecodePairs, ActivePairs, RequestedOptions, RequestOptions, OptionsInit;
    ParsedRequest(request, co);
    ActiveIn(RequestedOptions(request, co), TOTAL, o);
  }

  lemma AnsweredIs(request: RequestType, co: ClientOptions, env: Env, o: nat)
    requires SizeFits(env) && o < TOTAL
    ensures forall v :: (NAMES[o], v) in Answered(request, co, env) <==> Granted(request, co, env)[o] == Active(v)
  {
    hide DecodePairs, ActivePairs, EncodePairs, RequestedOptions, ServerOf, Shown, ValidValue, StoredValue, NulFree, Granted;
    ServerDecides(request, co, env);
    var g := Granted(request, co, env);
    forall o | 0 <= o < TOTAL && g[o].Active? ensures NulFree(g[o].value) && g[o].value != "" {
      GrantedValid(request, co, env, o);
    }
    DecodedOptions(g);
    ActiveIn(g, TOTAL, o);
  }

  /** A block size from 8 to 65464 bytes is asked for, answered and used by both
      ends; with any other, or none, a block has 512 bytes. */
  lemma BlockSizeAsGiven(request: RequestType, co: ClientOptions, env: Env)
    requires SizeFits(env)
    ensures var asks := co.blockSize.Some? && 8 <= co.blockSize.value <= 65464;
            && (forall v :: ("blksize", v) in Asked(request, co) <==> asks && v == Print(co.blockSize.value))
            && (forall v :: ("blksize", v) in Answered(request, co, env) <==> asks && v == Print(co.blockSize.value))
            && OptionsInit(request, Some(co)).blockSize == (if asks then co.blockSize.value else 512)
            && ServerOf(request, co, env).blockSize == (if asks then co.blockSize.value else 512)
  {
    hide Asked, Answered, ServerOf, Print, AnyActive, Shown;
    assert NAMES[0] == "blksize";
    AskedIs(request, co, 0);
    AnsweredIs(request, co, env, 0);
    ServerDecides(request, co, env);
  }

  /** A read request asks for a window of any size but 0; a write request, and
      one without, uses a window of one block. */
  lemma WindowAsGiven(request: RequestType, co: ClientOptions, env: Env)
    requires SizeFits(env)
    ensures var asks := request == Read && co.windowSize.Some? && 1 <= co.windowSize.value;
            && (forall v :: ("windowsize", v) in Asked(request, co) <==> asks && v == Print(co.windowSize.value))
            && (forall v :: ("windowsize", v) in Answered(request, co, env) <==> asks && v == Print(co.windowSize.value))
            && OptionsInit(request, Some(co)).windowSize == (if asks then co.windowSize.value else 1)
            && ServerOf(request, co, env).windowSize == (if asks then co.windowSize.value else 1)
  {
    hide Asked, Answered, ServerOf, Print, AnyActive, Shown;
    assert NAMES[3] == "windowsize";
    AskedIs(request, co, 3);
    AnsweredIs(request, co, env, 3);
    ServerDecides(request, co, env);
  }

  /** A time-out of 1 to 255 seconds is asked for and used by both ends, 2 seconds
      and the server's own without; a read request may ask for an adaptive one
      instead, which the server grants if it is enabled. */
  lemma TimeoutAsGiven(request: RequestType, co: ClientOptions, env: Env)
    requires SizeFits(env)
    ensures var adaptive, asks := request == Read && co.useAdaptive, co.timeout.Some? && 1 <= co.timeout.value;
            && (forall v :: ("timeout", v) in Asked(request, co) <==>
                  if adaptive then v == "adaptive" else asks && v == Print(co.timeout.value))
            && (forall v :: ("timeout", v) in Answered(request, co, env) <==>
                  if adaptive then env.adaptive && v == "adaptive" else asks && v == Print(co.timeout.value))
            && OptionsInit(request, Some(co)).timeout == (if asks then co.timeout.value else 2)
            && OptionsInit(request, Some(co)).useAdaptive == co.useAdaptive
            && ServerOf(request, co, env).adaptive == (adaptive && env.adaptive)
            && ServerOf(request, co, env).timeout == (if !adaptive && asks then co.timeout.value else env.timeout)
  {
    hide Asked, Answered, ServerOf, Print, AnyActive, Shown;
    assert NAMES[1] == "timeout" && ADAPTIVE == "adaptive";
    AskedIs(request, co, 1);
    AnsweredIs(request, co, env, 1);
    ServerDecides(request, co, env);
  }

  /** The size of the file and a listing: both are told only if they can be. */
  lemma SizeAndTypeAsGiven(request: RequestType, co: ClientOptions, env: Env)
    requires SizeFits(env)
    ensures forall v :: ("tsize", v) in Asked(request, co) <==> co.useTsize && v == "0"
    ensures forall v :: ("tsize", v) in Answered(request, co, env) <==>
              co.useTsize && env.fileSize.Some? && v == Print(env.fileSize.value)
    ensures forall v :: ("type", v) in Asked(request, co) <==> co.isList && v == "directory"
    ensures forall v :: ("type", v) in Answered(request, co, env) <==> co.isList && env.list && v == "directory"
    ensures OptionsInit(request, Some(co)).useTsize == co.useTsize
  {
    hide Asked, Answered, Print;
    assert NAMES[2] == "tsize" && NAMES[4] == "type";
    AskedIs(request, co, 2);
    AnsweredIs(request, co, env, 2);
    AskedIs(request, co, 4);
    AnsweredIs(request, co, env, 4);
  }

  /** Whether a request has options at all, and whether the server answers it
      with an OACK. */
  lemma OptionsAsGiven(request: RequestType, co: ClientOptions, env: Env)
    requires SizeFits(env)
    ensures var adaptive := request == Read && co.useAdaptive;
            var numbers := (co.blockSize.Some? && 8 <= co.blockSize.value <= 65464)
                           || (request == Read && co.windowSize.Some? && 1 <= co.windowSize.value)
                           || (!adaptive && co.timeout.Some? && 1 <= co.timeout.value);
            && OptionsInit(request, Some(co)).useOptions == (numbers || adaptive || co.useTsize || co.isList)
            && ServerOf(request, co, env).required ==
                 (numbers || (adaptive && env.adaptive) || co.useTsize || (co.isList && env.list))
  {
    hide Print, ServerOf, Shown;
    ServerDecides(request, co, env);
    var seen, asked := Seen(request, co, env), RequestedOptions(request, co);
    assert AnyActive(seen) <==>
        seen[0].Active? || seen[1].Active? || seen[2].Active? || seen[3].Active? || seen[4].Active?;
    assert (exists o :: 0 <= o < TOTAL && asked[o].Active?) <==>
        asked[0].Active? || asked[1].Active? || asked[2].Active? || asked[3].Active? || asked[4].Active?;
  }

  /** One option of a request, name and value each with its terminator. */
  function Spelled(active: bool, name: string, val: string): (s: string)
  {
    if active then name + ['\0'] + val + ['\0'] else ""
  }

  function OptSpelled(name: string, opt: Opt): (s: string)
  {
    match opt
    case Active(v) => Spelled(true, name, v)
    case Inactive => Spelled(false, name, "")
  }

  lemma PrintedUpTo(opts: seq<Opt>, n: nat)
    requires n < |opts| == TOTAL
    ensures EncodePairs(ActivePairs(opts, n + 1)) == EncodePairs(ActivePairs(opts, n)) + OptSpelled(NAMES[n], opts[n])
  {
    EncodeNext(opts, n);
    hide EncodePairs, ActivePairs;
  }

  lemma HeadSpelled(filename: string, mode: string)
    ensures EncodePair((filename, mode)) == Spelled(true, filename, mode)
  {
  }

  lemma TextSpelled(filename: string, mode: string, opts: seq<Opt>)
    requires |opts| == TOTAL
    ensures RequestText(filename, mode, opts) ==
              Spelled(true, filename, mode)
              + OptSpelled("blksize", opts[0]) + OptSpelled("timeout", opts[1]) + OptSpelled("tsize", opts[2])
              + OptSpelled("windowsize", opts[3]) + OptSpelled("type", opts[4])
  {
    hide EncodePairs, ActivePairs, Spelled, OptSpelled;
    assert NAMES[0] == "blksize" && NAMES[1] == "timeout" && NAMES[2] == "tsize" && NAMES[3] == "windowsize" && NAMES[4] == "type";
    NothingPrinted(opts);
    PrintedUpTo(opts, 0);
    PrintedUpTo(opts, 1);
    PrintedUpTo(opts, 2);
    PrintedUpTo(opts, 3);
    PrintedUpTo(opts, 4);
    HeadSpelled(filename, mode);
  }

  lemma OptionSpelled(request: RequestType, co: ClientOptions)
    ensures var adaptive, timed := request == Read && co.useAdaptive, co.timeout.Some? && 1 <= co.timeout.value;
            var sized := co.blockSize.Some? && 8 <= co.blockSize.value <= 65464;
            var windowed := request == Read && co.windowSize.Some? && 1 <= co.windowSize.value;
            var opts := OptionsInit(request, Some(co)).options;
            && opts[0] == (if sized then Active(Print(co.blockSize.value)) else Inactive)
            && opts[1] == (if adaptive then Active("adaptive") else if timed then Active(Print(co.timeout.value)) else Inactive)
            && opts[2] == (if co.useTsize then Active("0") else Inactive)
            && opts[3] == (if windowed then Active(Print(co.windowSize.value)) else Inactive)
            && opts[4] == (if co.isList then Active("directory") else Inactive)
  {
    hide Print;
  }

  lemma NotSpelled()
    ensures forall name, val :: Spelled(false, name, val) == ""
  {
  }

  /** The text of a request, letter by letter. */
  lemma RequestSpelled(filename: string, mode: string, request: RequestType, co: ClientOptions)
    ensures var adaptive, timed := request == Read && co.useAdaptive, co.timeout.Some? && 1 <= co.timeout.value;
            var sized := co.blockSize.Some? && 8 <= co.blockSize.value <= 65464;
            var windowed := request == Read && co.windowSize.Some? && 1 <= co.windowSize.value;
            RequestText(filename, mode, OptionsInit(request, Some(co)).options) ==
              Spelled(true, filename, mode)
              + Spelled(sized, "blksize", if sized then Print(co.blockSize.value) else "")
              + Spelled(adaptive || timed, "timeout",
                        if adaptive then "adaptive" else if timed then Print(co.timeout.value) else "")
              + Spelled(co.useTsize, "tsize", "0")
              + Spelled(windowed, "windowsize", if windowed then Print(co.windowSize.value) else "")
              + Spelled(co.isList, "type", "directory")
  {
    hide Print, RequestText, OptionsInit, Spelled;
    TextSpelled(filename, mode, OptionsInit(request, Some(co)).options);
    OptionSpelled(request, co);
    NotSpelled();
  }
}
