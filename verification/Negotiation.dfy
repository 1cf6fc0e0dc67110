/**
 Option negotiation (RFC 2347): what the client asks for, what the server
 makes of it, and what the client makes of the acknowledgement.
 */
module Negotiation {
  import opened BlockNumbers
  import opened CStrings
  import opened Options
  import opened OptionText
  import opened Packets
  import opened Requests
  import opened Session

  const DEFAULT_WINDOW: uint16 := 1
  const DEFAULT_TIMEOUT: uint8 := 2
  const ADAPTIVE := "adaptive"

  datatype Option<T> = None | Some(value: T)

  predicate IsAdaptive(p: Pair)
  {
    EqualNoCase(p.0, NAMES[TIMEOUT]) && EqualNoCase(p.1, ADAPTIVE)
  }

  /** The first pair `timeout`/`adaptive`, in any mixture of cases, is there. */
  predicate AsksAdaptive(ps: seq<Pair>)
  {
    exists i :: 0 <= i < |ps| && IsAdaptive(ps[i])
  }

  /** Both words in any mixture of cases. */
  lemma AdaptiveIff(p: Pair)
    ensures IsAdaptive(p) <==> Spells(p.0, "timeout") && Spells(p.1, "adaptive")
  {
    hide EqualNoCase, Spells;
    EqualNoCaseIff(p.0, "timeout");
    EqualNoCaseIff(p.1, "adaptive");
  }

  /** `strtoul` of the value of an active option. */
  function Number(opt: Opt, otherwise: nat): (n: nat)
  {
    if opt.Active? then Strtoul(opt.value).value else otherwise
  }

  // --------------------------------------------------------------- client

  /** `struct tftp_client_options`; None is a null pointer. */
  datatype ClientOptions = ClientOptions(
    timeout: Option<uint8>,
    blockSize: Option<uint16>,
    windowSize: Option<uint16>,
    useTsize: bool,
    useAdaptive: bool,
    isList: bool)

  /** `struct options` of a request. */
  datatype Client = Client(
    request: RequestType,
    options: seq<Opt>,
    useOptions: bool,
    timeout: uint8,
    blockSize: uint16,
    windowSize: uint16,
    useTsize: bool,
    useAdaptive: bool,
    tsize: nat)

  predicate AsksTimeout(co: ClientOptions)
  {
    co.timeout.Some? && co.timeout.value != 0
  }

  predicate AsksBlockSize(co: ClientOptions)
  {
    co.blockSize.Some? && 8 <= co.blockSize.value <= 65464
  }

  predicate AsksWindow(request: RequestType, co: ClientOptions)
  {
    co.windowSize.Some? && co.windowSize.value != 0 && request != Write
  }

  predicate AsksForAdaptive(request: RequestType, co: ClientOptions)
  {
    co.useAdaptive && request == Read
  }

  function OptionIf(active: bool, value: string): (o: Opt)
  {
    if active then Active(value) else Inactive
  }

  function RequestedOptions(request: RequestType, co: ClientOptions): (opts: seq<Opt>)
    ensures |opts| == TOTAL
  {
    [ OptionIf(AsksBlockSize(co), if AsksBlockSize(co) then Print(co.blockSize.value) else ""),
      OptionIf(AsksTimeout(co) || AsksForAdaptive(request, co),
               if AsksForAdaptive(request, co) then ADAPTIVE
               else if AsksTimeout(co) then Print(co.timeout.value) else ""),
      OptionIf(co.useTsize, "0"),
      OptionIf(AsksWindow(request, co), if AsksWindow(request, co) then Print(co.windowSize.value) else ""),
      OptionIf(co.isList, "directory") ]
  }

  /** `options_init`; without options everything stays zero. */
  function OptionsInit(request: RequestType, options: Option<ClientOptions>): (c: Client)
    ensures |c.options| == TOTAL
  {
    if options.None? then Client(request, NONE, false, 0, 0, 0, false, false, 0)
    else
      var co := options.value;
      var opts := RequestedOptions(request, co);
      Client(request, opts, exists o :: 0 <= o < TOTAL && opts[o].Active?,
             if AsksTimeout(co) then co.timeout.value else DEFAULT_TIMEOUT,
             if AsksBlockSize(co) then co.blockSize.value else DEFAULT_BLKSIZE,
             if AsksWindow(request, co) then co.windowSize.value else DEFAULT_WINDOW,
             co.useTsize, co.useAdaptive, 0)
  }

  /** The options the client finds in an OACK. */
  function Acknowledged(c: Client, values: string): (opts: seq<Opt>)
    ensures |opts| == TOTAL
  {
    var parsed := ParsePairs(NONE, DecodePairs(values, 0));
    if c.useAdaptive && c.request == Read && AsksAdaptive(DecodePairs(values, 0))
    then parsed[TIMEOUT := Active(ADAPTIVE)] else parsed
  }

  predicate Unrequested(c: Client, acked: seq<Opt>)
    requires |c.options| == |acked| == TOTAL
  {
    exists o :: 0 <= o < TOTAL && acked[o].Active? && c.options[o].Inactive?
  }

  /** `handle_oack_packet`; None when the OACK is refused. */
  function HandleOack(c: Client, values: string): (r: Option<Client>)
    requires |c.options| == TOTAL
    ensures r.Some? ==> |r.value.options| == TOTAL
  {
    var acked := Acknowledged(c, values);
    var adaptive := if c.useAdaptive && c.request == Read then AsksAdaptive(DecodePairs(values, 0)) else c.useAdaptive;
    if Unrequested(c, acked) then None
    else Some(c.(
      blockSize := Wrap16(Number(acked[BLKSIZE], c.blockSize)),
      windowSize := Wrap16(Number(acked[WINDOWSIZE], c.windowSize)),
      tsize := Number(acked[TSIZE], c.tsize),
      timeout := if adaptive then c.timeout else Wrap8(Number(acked[TIMEOUT], c.timeout)),
      useAdaptive := adaptive,
      options := if acked[READ_TYPE].Inactive? then c.options[READ_TYPE := Inactive] else c.options))
  }

  // --------------------------------------------------------------- server

  /** Settings of the server, and the size of the file when it has one. */
  datatype Env = Env(adaptive: bool, list: bool, timeout: uint8, fileSize: Option<nat>)

  /** `struct session_options` and the session fields it points to. `text` is
      the server's copy of the options; `recognized` points into it. */
  datatype Server = Server(
    text: string,
    recognized: seq<Ref>,
    required: bool,
    blockSize: uint16,
    windowSize: uint16,
    timeout: uint8,
    adaptive: bool)

  function InitialServer(env: Env, text: string): (s: Server)
  {
    Server(text, NOWHERE, false, DEFAULT_BLKSIZE, DEFAULT_WINDOW, env.timeout, false)
  }

  /** The values of the recognised options, as they can be read now. */
  function Shown(s: Server): (opts: seq<Opt>)
    requires |s.recognized| == TOTAL
    ensures |opts| == TOTAL
  {
    ReadAll(s.text, s.recognized)
  }

  /** The options that count: no listings and no adaptive time-outs unless enabled. */
  function Recognized(env: Env, text: string): (refs: seq<Ref>)
    ensures |refs| == TOTAL
  {
    var located := Locate(text, 0, NOWHERE);
    var typed := if env.list then located else located[READ_TYPE := Missing];
    if env.adaptive && AsksAdaptive(DecodePairs(text, 0)) then typed[TIMEOUT := Own(ADAPTIVE)] else typed
  }

  /** The size of the file is printed where the value of the option is, which
      may be in the middle of the text. */
  function PrintSize(s: Server, d: string): (r: Server)
    requires |s.recognized| == TOTAL
    ensures |r.recognized| == TOTAL
  {
    match s.recognized[TSIZE]
    case Missing => s
    case Own(_) => s.(recognized := s.recognized[TSIZE := Own(d)])
    case InText(p) => if p <= |s.text| then s.(text := Overwrite(s.text, p, d)) else s
  }

  /** One turn of the last loop of `parse_options`. */
  function Apply(env: Env, s: Server, o: nat): (r: Server)
    requires o < TOTAL == |s.recognized|
    ensures |r.recognized| == TOTAL
  {
    if s.recognized[o].Missing? then s
    else
      var v, t := ReadRef(s.text, s.recognized[o]).value, s.(required := true);
      if o == BLKSIZE then t.(blockSize := Wrap16(Strtoul(v).value))
      else if o == TIMEOUT then
        if EqualNoCase(v, ADAPTIVE) then t.(adaptive := true) else t.(timeout := Wrap8(Strtoul(v).value))
      else if o == TSIZE then
        if env.fileSize.Some? then PrintSize(t, Print(env.fileSize.value))
        else t.(recognized := s.recognized[TSIZE := Missing])
      else if o == WINDOWSIZE then t.(windowSize := Wrap16(Strtoul(v).value))
      else t
  }

  function ApplyFirst(env: Env, s: Server, n: nat): (r: Server)
    requires n <= TOTAL == |s.recognized|
    ensures |r.recognized| == TOTAL
  {
    if n == 0 then s else Apply(env, ApplyFirst(env, s, n - 1), n - 1)
  }

  /** `parse_options`. */
  function ParseRequested(env: Env, text: string): (s: Server)
    ensures |s.recognized| == TOTAL
  {
    var refs := Recognized(env, text);
    var asked := env.adaptive && AsksAdaptive(DecodePairs(text, 0));
    ApplyFirst(env, InitialServer(env, text).(recognized := refs, adaptive := asked), TOTAL)
  }

  /** The text of the OACK. */
  function OackText(s: Server): (t: string)
    requires |s.recognized| == TOTAL
  {
    EncodePairs(ActivePairs(Shown(s), TOTAL))
  }
}
