/**
 From the request the client prints to the file the other end has: option
 negotiation joined to the transfer it configures.
 */
module EndToEnd {
  import opened BlockNumbers
  import opened RingSlots
  import opened FileBlocks
  import opened CStrings
  import opened Options
  import opened Packets
  import opened Requests
  import opened Session
  import opened Negotiation
  import opened Agreement
  import opened AskedAndAnswered
  import opened OptionText
  import opened ServerLoop
  import R = Receiver
  import F = FileSender
  import I = SenderInvariant
  import G = GetTransfer
  import GR = GetResults
  import P = PutTransfer
  import PT = PutTheorems

  /** Everything the two ends bring along. */
  datatype Setting = Setting(
    given: Option<ClientOptions>,
    env: Env,
    filename: string,
    clientRetries: uint8,
    serverRetries: uint8,
    file: seq<byte>,
    seekable: bool)

  function ClientOf(d: Setting, request: RequestType): (c: Client)
    ensures |c.options| == TOTAL
  {
    OptionsInit(request, d.given)
  }

  /** What follows the opcode of the client's request. */
  function TextOf(d: Setting, request: RequestType): (t: string)
  {
    RequestText(d.filename, OCTET, ClientOf(d, request).options)
  }

  /** The server's options after it has read that text. */
  function ServerFrom(env: Env, text: string): (s: Server)
    requires WellFormed(text)
    ensures |s.recognized| == TOTAL
  {
    ParseRequested(env, SplitRequest(text).options)
  }

  function SessionConfig(d: Setting, request: RequestType, s: Server): (cfg: Config)
  {
    Config(request, d.serverRetries, s.blockSize, s.windowSize, s.required, s.adaptive)
  }

  lemma OctetIsNulFree()
    ensures NulFree(OCTET)
  {
  }

  /** The request arrives as it was meant. */
  lemma RequestUnderstood(d: Setting, request: RequestType)
    requires NulFree(d.filename)
    ensures var text := TextOf(d, request);
            && WellFormed(text)
            && SplitRequest(text).path == d.filename
            && SplitRequest(text).mode == OCTET
            && SplitRequest(text).options == RequestOptions(ClientOf(d, request))
  {
    hide WellFormed, SplitRequest, ActivePairs, EncodePairs, RequestText, NulFree, RequestedOptions;
    var opts := ClientOf(d, request).options;
    forall o | 0 <= o < TOTAL && opts[o].Active? ensures NulFree(opts[o].value) && opts[o].value != "" {
      if d.given.Some? {
        RequestedValid(request, d.given.value, o);
      }
    }
    ActivePairsNulFree(opts, TOTAL);
    OctetIsNulFree();
    PrintedRequest(d.filename, OCTET, opts);
  }

  lemma NonePrinted()
    ensures EncodePairs(ActivePairs(NONE, TOTAL)) == ""
  {
    NothingPrinted(NONE);
    EncodeNext(NONE, 0);
    EncodeNext(NONE, 1);
    EncodeNext(NONE, 2);
    EncodeNext(NONE, 3);
    EncodeNext(NONE, 4);
    hide EncodePairs, ActivePairs;
  }

  /** A request without options leaves the server at its defaults. */
  lemma NothingRequested(env: Env)
    ensures ParseRequested(env, EncodePairs(ActivePairs(NONE, TOTAL))) == InitialServer(env, "")
  {
    NonePrinted();
    hide EncodePairs, ActivePairs;
    assert DecodePairs("", 0) == [];
    assert !AsksAdaptive(DecodePairs("", 0));
    assert Recognized(env, "") == NOWHERE;
    LoopDecides(env, "", NOWHERE, false);
    hide ApplyFirst, Recognized, DecodePairs;
  }

  // ------------------------------------------------------------------ GET

  /** What `receive_file` makes of the OACK; a listing must be acknowledged. */
  function Verdict(c: Client, values: string): (v: R.OackVerdict)
    requires |c.options| == TOTAL
  {
    var r := HandleOack(c, values);
    if r.None? || (c.options[READ_TYPE].Active? && r.value.options[READ_TYPE].Inactive?)
    then R.OackRejected else R.OackAccepted(r.value.blockSize)
  }

  function GetConfigOf(d: Setting): (g: G.GetConfig)
    requires WellFormed(TextOf(d, Read))
  {
    var c, s := ClientOf(d, Read), ServerFrom(d.env, TextOf(d, Read));
    G.GetConfig(
      SessionConfig(d, Read, s),
      R.ReceiverConfig(d.clientRetries, c.useOptions, c.options[READ_TYPE].Active?, c.blockSize, Verdict(c, OackText(s))),
      d.file, d.seekable)
  }

  lemma AgreedBlockSize(request: RequestType, co: ClientOptions, env: Env)
    requires SizeFits(env)
    ensures var c, s := OptionsInit(request, Some(co)), ServerOf(request, co, env);
            && HandleOack(c, OackText(s)).Some?
            && HandleOack(c, OackText(s)).value.blockSize == s.blockSize
            && HandleOack(c, OackText(s)).value.windowSize == s.windowSize
  {
    hide HandleOack, OackText, ServerOf, OptionsInit;
    NegotiationAgrees(request, co, env);
  }

  /** Whatever options the client asks for, and none as well, negotiation
      leaves both ends with matching parameters. */
  lemma GetAgrees(d: Setting)
    requires NulFree(d.filename) && SizeFits(d.env)
    ensures WellFormed(TextOf(d, Read))
    ensures var g := GetConfigOf(d);
            && ValidConfig(g.session)
            && (G.RingFits(g) ==> G.ValidGet(g))
  {
    hide WellFormed, SplitRequest, RingSafe, LastBlock, HandleOack, Agreed, OackText, NulFree, RequestText, RequestedOptions;
    RequestUnderstood(d, Read);
    if d.given.Some? {
      NegotiationAgrees(Read, d.given.value, d.env);
      ServerDecides(Read, d.given.value, d.env);
      AgreedBlockSize(Read, d.given.value, d.env);
      hide ServerOf, Granted, AnyActive, Seen;
    } else {
      NothingRequested(d.env);
      hide ParseRequested, ActivePairs, EncodePairs;
    }
  }

  lemma FileConfigured(d: Setting)
    requires WellFormed(TextOf(d, Read))
    ensures GetConfigOf(d).file == d.file
  {
    hide WellFormed, ParseRequested, Verdict;
  }

  /** The last check of `handle_get_request`, on the number of bytes received.
      DATA instead of an OACK withdraws the request for the size. */
  predicate SizeAccepted(d: Setting, received: nat)
    requires WellFormed(TextOf(d, Read))
  {
    var c, s := ClientOf(d, Read), ServerFrom(d.env, TextOf(d, Read));
    var r := HandleOack(c, OackText(s));
    s.required && r.Some? && r.value.useTsize ==> received == r.value.tsize
  }

  predicate SizeRequired(d: Setting)
  {
    d.given.Some? && d.given.value.useTsize
  }

  lemma SizeSeen(request: RequestType, co: ClientOptions, env: Env)
    ensures co.useTsize ==> AnyActive(Seen(request, co, env))
    ensures Granted(request, co, env)[TSIZE].Active? <==> co.useTsize && env.fileSize.Some?
  {
    hide Print, EqualNoCase;
    SeenSize(request, co, env);
  }

  /** The number of bytes received is accepted if the size was not asked for, or
      is the number told; where the server could not tell it, only 0 is. */
  lemma SizeAcceptedIff(d: Setting, received: nat)
    requires NulFree(d.filename) && SizeFits(d.env) && WellFormed(TextOf(d, Read))
    ensures SizeAccepted(d, received) <==>
              !SizeRequired(d) || received == (if d.env.fileSize.Some? then d.env.fileSize.value else 0)
  {
    hide WellFormed, SplitRequest, OackText, NulFree, RequestText;
    RequestUnderstood(d, Read);
    if d.given.Some? {
      var co := d.given.value;
      NegotiationAgrees(Read, co, d.env);
      ServerDecides(Read, co, d.env);
      SizeSeen(Read, co, d.env);
      hide ServerOf, Granted, AnyActive, Seen, Acknowledged, RequestedOptions;
    } else {
      NothingRequested(d.env);
      hide ParseRequested, ActivePairs, EncodePairs;
    }
  }

  /** The client keeps its request for a list only if the server grants it. */
  lemma ListGranted(co: ClientOptions, env: Env)
    requires SizeFits(env)
    ensures var c, s := OptionsInit(Read, Some(co)), ServerOf(Read, co, env);
            && (c.options[READ_TYPE].Active? <==> co.isList)
            && (Shown(s)[READ_TYPE].Active? <==> co.isList && env.list)
  {
    hide Print, Shown, ServerOf, AnyActive;
    ServerDecides(Read, co, env);
  }

  /** What a read request with options is configured with: the numbers given, if
      they may be asked for, and each end's own retries. */
  lemma GetConfigured(d: Setting)
    requires NulFree(d.filename) && SizeFits(d.env) && d.given.Some?
    ensures WellFormed(TextOf(d, Read))
    ensures var g, co := GetConfigOf(d), d.given.value;
            && g.session.request == Read && g.session.retries == d.serverRetries && g.client.retries == d.clientRetries
            && g.session.blockSize == (if co.blockSize.Some? && 8 <= co.blockSize.value <= 65464 then co.blockSize.value else 512)
            && g.session.windowSize == (if co.windowSize.Some? && 1 <= co.windowSize.value then co.windowSize.value else 1)
            && g.session.adaptive == (co.useAdaptive && d.env.adaptive)
            && g.session.optionsRequired ==
                 ((co.blockSize.Some? && 8 <= co.blockSize.value <= 65464)
                  || (co.windowSize.Some? && 1 <= co.windowSize.value)
                  || (if co.useAdaptive then d.env.adaptive else co.timeout.Some? && 1 <= co.timeout.value)
                  || co.useTsize || (co.isList && d.env.list))
            && g.client.listRequested == co.isList
            && g.client.requestedBlockSize ==
                 (if co.blockSize.Some? && 8 <= co.blockSize.value <= 65464 then co.blockSize.value else 512)
            && (g.client.oack.OackAccepted? <==> (co.isList ==> d.env.list))
            && g.file == d.file && g.seekable == d.seekable
  {
    hide WellFormed, SplitRequest, HandleOack, OackText, NulFree, RequestText, ParseRequested, OptionsInit, AnyActive, Asked, Answered, Shown;
    RequestUnderstood(d, Read);
    var co := d.given.value;
    assert ServerFrom(d.env, TextOf(d, Read)) == ServerOf(Read, co, d.env);
    OptionsAsGiven(Read, co, d.env);
    BlockSizeAsGiven(Read, co, d.env);
    WindowAsGiven(Read, co, d.env);
    TimeoutAsGiven(Read, co, d.env);
    NegotiationAgrees(Read, co, d.env);
    ListGranted(co, d.env);
  }

  /** From the options the user gave to the file on the client's disk. Of the
      requirements only `RingFits` is one: the checks of the request and the
      rest of `ValidGet` follow by `GetAgrees`, and are repeated so that the
      states of the run can be written down. */
  lemma GetDelivers(d: Setting, ring: seq<Slot>, run: seq<G.Step>)
    requires NulFree(d.filename) && SizeFits(d.env) && WellFormed(TextOf(d, Read))
    requires G.RingFits(GetConfigOf(d)) && G.ValidGet(GetConfigOf(d))
    requires G.ValidRing(GetConfigOf(d), ring) && G.ValidRun(GetConfigOf(d), ring, run)
    ensures var client := G.Exec(GetConfigOf(d), ring, run).client;
            && client.out <= d.file
            && (client.status == R.Succeeded ==> client.out == d.file)
            && (client.status == R.Succeeded && (d.env.fileSize.Some? ==> d.env.fileSize.value == |d.file|) ==>
                  (SizeAccepted(d, |client.out|) <==>
                     !SizeRequired(d) || d.env.fileSize.Some? || d.file == []))
  {
    hide WellFormed, SplitRequest, G.RingFits, NulFree, GetConfigOf, SizeAccepted, SizeRequired;
    GR.GetSafety(GetConfigOf(d), ring, run);
    FileConfigured(d);
    if d.env.fileSize.Some? ==> d.env.fileSize.value == |d.file| {
      SizeAcceptedIff(d, |d.file|);
    }
    hide G.ValidGet, G.Exec;
  }

  // ------------------------------------------------------------------ PUT

  /** The client's parameters after the answer to a write request: the OACK,
      or ACK 0, which withdraws options. */
  function AfterAnswer(c: Client, s: Server): (r: Option<Client>)
    requires |c.options| == |s.recognized| == TOTAL
  {
    if s.required then HandleOack(c, OackText(s))
    else if c.useOptions then
      Some(c.(useOptions := false, blockSize := DEFAULT_BLKSIZE, timeout := DEFAULT_TIMEOUT, useTsize := false))
    else Some(c)
  }

  /** ACK 0 withdraws whatever was asked for: blocks of 512 bytes, 2 seconds, no
      size. */
  lemma AnswerWithdraws(request: RequestType, co: ClientOptions, s: Server)
    requires |s.recognized| == TOTAL && !s.required
    ensures var c := OptionsInit(request, Some(co));
            && AfterAnswer(c, s).Some?
            && (var r := AfterAnswer(c, s).value;
                && !r.useOptions
                && (c.useOptions ==> r.blockSize == 512 && r.timeout == 2 && !r.useTsize)
                && r.windowSize == c.windowSize && r.request == request)
  {
    hide Print;
  }

  function PutConfigOf(d: Setting): (g: Option<P.PutConfig>)
    requires WellFormed(TextOf(d, Write))
  {
    var c, s := ClientOf(d, Write), ServerFrom(d.env, TextOf(d, Write));
    var r := AfterAnswer(c, s);
    if r.None? then None
    else Some(P.PutConfig(SessionConfig(d, Write, s),
                          F.SenderConfig(r.value.blockSize, r.value.windowSize, d.clientRetries, d.file)))
  }

  /** Without a single option asked for, the client uses the defaults. */
  lemma NoOptionsNoSize(request: RequestType, co: ClientOptions)
    ensures var c := OptionsInit(request, Some(co));
            !c.useOptions ==> c.blockSize == DEFAULT_BLKSIZE && c.windowSize == DEFAULT_WINDOW
  {
    hide Print;
    var opts := RequestedOptions(request, co);
    assert opts[BLKSIZE].Active? <==> AsksBlockSize(co);
    assert opts[WINDOWSIZE].Active? <==> AsksWindow(request, co);
  }

  /** A write request that was given options is configured alike at both ends,
      always with a window of one block. */
  lemma PutAgrees(d: Setting)
    requires NulFree(d.filename) && SizeFits(d.env) && d.given.Some?
    ensures WellFormed(TextOf(d, Write)) && PutConfigOf(d).Some?
    ensures var g := PutConfigOf(d).value;
            && g.client.windowSize == 1
            && g.client.blockSize == g.session.blockSize
            && (P.ValidPut(g) <==> I.Sendable(g.client))
            && g.client.file == d.file && g.client.retries == d.clientRetries && g.session.retries == d.serverRetries
  {
    hide WellFormed, SplitRequest, LastBlock, HandleOack, Agreed, OackText, NulFree, RequestText, RequestedOptions;
    var co := d.given.value;
    RequestUnderstood(d, Write);
    NegotiationAgrees(Write, co, d.env);
    ServerDecides(Write, co, d.env);
    AgreedBlockSize(Write, co, d.env);
    NoOptionsNoSize(Write, co);
    hide ServerOf, Granted, AnyActive, Seen;
  }

  /** With a null pointer for the options the client would send blocks of no
      bytes with a window of none. */
  lemma NullOptionsCannotPut(d: Setting)
    requires NulFree(d.filename) && SizeFits(d.env) && d.given.None?
    ensures WellFormed(TextOf(d, Write)) && PutConfigOf(d).Some?
    ensures PutConfigOf(d).value.client.blockSize == 0 && PutConfigOf(d).value.client.windowSize == 0
    ensures PutConfigOf(d).value.session.blockSize == DEFAULT_BLKSIZE
  {
    hide WellFormed, SplitRequest, HandleOack, NulFree, RequestText;
    RequestUnderstood(d, Write);
    NothingRequested(d.env);
    hide ParseRequested, ActivePairs, EncodePairs;
  }

  /** From the options the user gave to the file on the server's disk. */
  lemma PutDelivers(d: Setting, serverRing: seq<Slot>, clientRing: seq<Slot>, run: seq<P.Step>)
    requires NulFree(d.filename) && SizeFits(d.env) && d.given.Some?
    requires WellFormed(TextOf(d, Write)) && PutConfigOf(d).Some?
    requires P.ValidPut(PutConfigOf(d).value) && P.ValidRings(PutConfigOf(d).value, serverRing, clientRing)
    requires P.ValidRun(PutConfigOf(d).value, serverRing, clientRing, run)
    ensures var y := P.Exec(PutConfigOf(d).value, serverRing, clientRing, run);
            && y.c.s.sink.written <= d.file
            && (y.client.status == R.Succeeded ==> y.c.s.sink.written == d.file)
  {
    PT.PutSafety(PutConfigOf(d).value, serverRing, clientRing, run);
    hide P.ValidPut, P.ValidRings, P.Exec, HandleOack, WellFormed, ParseRequested, NulFree, OackText, RequestText;
  }
}
