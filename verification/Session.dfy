/**
 The server session (session.c) as functions on values: what each event does
 to the session, and which packets and dispatcher operations it asks for.
 */
module Session {
  import opened BlockNumbers
  import opened FileBlocks
  import opened Packets

  datatype RequestType = Read | Write

  /** What is fixed once the request has been parsed. */
  datatype Config = Config(
    request: RequestType,
    retries: uint8,
    blockSize: uint16,
    windowSize: uint16,
    optionsRequired: bool,
    adaptive: bool)

  /** One element of the `data_packets` ring: header and `block_size` bytes. */
  datatype Slot = Slot(block: uint16, data: seq<byte>)

  /** `window_begin`, `next_data_packet_to_send`. */
  datatype Window = Window(begin: uint16, next: uint16)

  /** `last_packet` (-1 until the short block is sent), `last_block_size`,
      `incomplete_read`, `is_fetching_data`. */
  datatype Source = Source(lastPacket: int, size: nat, incomplete: bool, fetching: bool)

  datatype Control = Control(timerActive: bool, retransmission: uint8, optionsAcked: bool, shouldClose: bool)

  /** `adaptive_timeout.is_timer_active`, `adaptive_timeout.starting_block_number`. */
  datatype Rtt = Rtt(active: bool, block: uint16)

  /** `expected_sequence_number` and the file of a write request. */
  datatype Sink = Sink(expected: uint16, written: seq<byte>)

  datatype Session = Session(
    cfg: Config, win: Window, src: Source, ctl: Control, rtt: Rtt, sink: Sink, ring: seq<Slot>)

  /** Operations a session submits to the dispatcher and counts in `pending_jobs`. */
  datatype Op = OpTimeout | OpTimeoutRemove | OpRecv | OpRecvCancel | OpRead

  /** Sample: `adaptive_timeout_stop_timer` takes a round-trip measurement. */
  datatype Action = Send(packet: Packet) | Submit(op: Op) | Sample

  datatype Reaction = Reaction(s: Session, acts: seq<Action>)

  datatype Arrival =
    | RecvCancelled
    | NotFromPeer         // too short, unknown family or another sender
    | FromPeer(packet: Packet)

  datatype Event =
    | Start(valid: bool)
    | Timeout(cancelled: bool)
    | TimeoutRemoved
    | PacketReceived(arrival: Arrival)
    | PacketReceivedRemoved
    | DataAvailable(success: bool, bytes: seq<byte>, atEof: bool)

  predicate ValidConfig(cfg: Config)
  {
    1 <= cfg.blockSize && 1 <= cfg.windowSize
  }

  predicate ValidSession(s: Session)
  {
    && ValidConfig(s.cfg)
    && |s.ring| == s.cfg.windowSize
    && (forall i :: 0 <= i < |s.ring| ==> |s.ring[i].data| == s.cfg.blockSize)
    && s.src.size <= s.cfg.blockSize
  }

  /** A read never returns more than was asked for. */
  predicate Deliverable(s: Session, e: Event)
  {
    e.DataAvailable? ==> |e.bytes| <= s.cfg.blockSize - s.src.size
  }

  predicate OackPending(s: Session)
  {
    s.cfg.optionsRequired && !s.ctl.optionsAcked
  }

  // ------------------------------------------------------------- the ring

  /** Bytes the kernel puts into the slot of the block being read. */
  function FillSlot(s: Session, bytes: seq<byte>): (r: Session)
    requires ValidSession(s) && |bytes| <= s.cfg.blockSize - s.src.size
  {
    var i := SlotOf(s.win.next, s.cfg.windowSize);
    var d := s.ring[i].data;
    var d' := d[..s.src.size] + bytes + d[s.src.size + |bytes|..];
    s.(ring := s.ring[i := s.ring[i].(data := d')])
  }

  /** `get_data_packet_info`: the packet stored for block number `i`. */
  function StoredPacket(s: Session, i: uint16): (r: Packet)
    requires ValidSession(s)
  {
    var slot := s.ring[SlotOf(i, s.cfg.windowSize)];
    Data(slot.block, slot.data[..if i == s.src.lastPacket then s.src.size else s.cfg.blockSize])
  }

  /** Number of blocks in the window, when it is not empty. */
  function WindowLength(w: Window): (r: uint16)
  {
    Wrap16(w.next - w.begin)
  }

  /** What `n` turns of the retransmission loop send. */
  function PacketsFromBegin(s: Session, n: nat): (r: seq<Packet>)
    requires ValidSession(s)
  {
    seq(n, i requires 0 <= i => StoredPacket(s, Wrap16(s.win.begin + i)))
  }

  function WindowPackets(s: Session): (r: seq<Packet>)
    requires ValidSession(s)
  {
    PacketsFromBegin(s, WindowLength(s.win))
  }

  function SendAll(ps: seq<Packet>): (r: seq<Action>)
  {
    seq(|ps|, i requires 0 <= i < |ps| => Send(ps[i]))
  }

  // ------------------------------------------------------------- handlers

  function SetClose(s: Session, close: bool): (r: Session)
  {
    s.(ctl := s.ctl.(shouldClose := close))
  }

  function OnStart(s: Session, valid: bool): (r: Reaction)
  {
    if !valid then
      Reaction(SetClose(s, true), [])
    else if OackPending(s) then
      Reaction(s.(rtt := if s.cfg.adaptive then Rtt(true, 0) else s.rtt, ctl := s.ctl.(timerActive := true)),
               [Submit(OpTimeout), Send(Oack), Submit(OpRecv)])
    else if s.cfg.request == Write then
      Reaction(s, [Send(Ack(0)), Submit(OpRecv)])
    else
      Reaction(s, [Submit(OpRecv)])
  }

  /** The block in the slot of `next` is complete: number it and send it. */
  function SendNewBlock(s: Session): (r: Reaction)
    requires ValidSession(s)
  {
    var k := s.win.next;
    var i := SlotOf(k, s.cfg.windowSize);
    var first := s.win.begin == k;
    var r := Session(
      s.cfg,
      s.win.(next := Wrap16(k + 1)),
      if s.src.size < s.cfg.blockSize then s.src.(lastPacket := k) else s.src,
      if first then s.ctl.(timerActive := true) else s.ctl,
      if s.cfg.adaptive && !s.rtt.active then Rtt(true, k) else s.rtt,
      s.sink,
      s.ring[i := s.ring[i].(block := k)]);
    Reaction(r, [Send(Data(k, s.ring[i].data[..s.src.size]))] + if first then [Submit(OpTimeout)] else [])
  }

  function OnDataAvailable(s: Session, success: bool, bytes: seq<byte>, atEof: bool): (r: Reaction)
    requires ValidSession(s) && |bytes| <= s.cfg.blockSize - s.src.size
  {
    if !success then
      Reaction(SetClose(s, true), [Send(Error)])
    else
      var s1 := FillSlot(s, bytes);
      var s2 := s1.(src := s1.src.(size := s.src.size + |bytes|));
      if |bytes| < s.cfg.blockSize && !atEof then
        Reaction(s2.(src := s2.src.(incomplete := true)), [])
      else
        SendNewBlock(s2)
  }

  function Retransmission(s: Session): (r: seq<Packet>)
    requires ValidSession(s)
  {
    if OackPending(s) then [Oack]
    else if s.cfg.request == Write then [Ack(Wrap16(s.sink.expected - 1))]
    else WindowPackets(s)
  }

  function OnTimeout(s: Session): (r: Reaction)
    requires ValidSession(s)
  {
    if s.ctl.retransmission >= s.cfg.retries then
      Reaction(SetClose(s, true), [Submit(OpRecvCancel), Send(Error)])
    else
      Reaction(
        s.(ctl := s.ctl.(retransmission := s.ctl.retransmission + 1, timerActive := true),
           rtt := if s.cfg.adaptive then s.rtt.(active := false) else s.rtt),
        [Submit(OpTimeout)] + SendAll(Retransmission(s)))
  }

  function OnData(s: Session, block: uint16, payload: seq<byte>): (r: Reaction)
  {
    var acked := OackPending(s) && block == 1;
    if !acked && block != s.sink.expected then
      Reaction(s, [])
    else
      Reaction(
        s.(sink := Sink(Wrap16(s.sink.expected + 1), s.sink.written + payload),
           ctl := Control(s.ctl.timerActive, 0, s.ctl.optionsAcked || acked, |payload| < s.cfg.blockSize)),
        [Send(Ack(block))])
  }

  /** The acknowledgement moves the window. */
  predicate AckAccepted(s: Session, block: uint16)
  {
    || (OackPending(s) && block == 0)
    || IsInRange(block, s.win.begin, Wrap16(s.win.next - 1))
  }

  function OnAck(s: Session, block: uint16): (r: Reaction)
  {
    if !AckAccepted(s, block) then
      Reaction(s, [])
    else
      var w := Window(Wrap16(block + 1), s.win.next);
      var restart := w.begin != w.next;
      var sample := s.cfg.adaptive && s.rtt.active && IsInRange(block, s.rtt.block, Wrap16(s.win.next - 1));
      var c := Control(restart, 0,
                       s.ctl.optionsAcked || (OackPending(s) && block == 0),
                       s.src.lastPacket != -1 && block == s.src.lastPacket);
      Reaction(s.(win := w, ctl := c, rtt := if sample then s.rtt.(active := false) else s.rtt),
               (if sample then [Sample] else []) +
               [Submit(OpTimeoutRemove)] + (if restart then [Submit(OpTimeout)] else []))
  }

  function OnPacket(s: Session, p: Packet): (r: Reaction)
  {
    if p.Error? then
      Reaction(SetClose(s, true), [])
    else if p.Data? && s.cfg.request == Write then
      OnData(s, p.block, p.payload)
    else if p.Ack? && s.cfg.request == Read then
      OnAck(s, p.block)
    else
      Reaction(SetClose(s, true), [Send(Error)])
  }

  function OnArrival(s: Session, a: Arrival): (r: Reaction)
  {
    if s.ctl.shouldClose || a.RecvCancelled? then
      Reaction(s, [])
    else
      var r := if a.FromPeer? then OnPacket(s, a.packet) else Reaction(s, []);
      if r.s.ctl.shouldClose then r else Reaction(r.s, r.acts + [Submit(OpRecv)])
  }

  /** The `switch` of `tftp_session_handle_event`. */
  function Dispatch(s: Session, e: Event): (r: Reaction)
    requires ValidSession(s) && Deliverable(s, e)
  {
    match e
    case Start(valid) => OnStart(s, valid)
    case Timeout(cancelled) =>
      if cancelled || s.ctl.shouldClose || !s.ctl.timerActive then Reaction(s, []) else OnTimeout(s)
    case TimeoutRemoved => Reaction(s, [])
    case PacketReceived(arrival) => OnArrival(s, arrival)
    case PacketReceivedRemoved => Reaction(s, [])
    case DataAvailable(success, bytes, atEof) =>
      OnDataAvailable(s.(src := s.src.(fetching := false)), success, bytes, atEof)
  }

  predicate ShouldFetch(s: Session)
  {
    && s.cfg.request == Read
    && !s.src.fetching
    && !s.ctl.shouldClose
    && !OackPending(s)
    && s.src.lastPacket == -1
    && IsInRange(s.win.next, s.win.begin, Wrap16(s.win.begin + s.cfg.windowSize - 1))
  }

  /** `fetch_data_octet_async`. */
  function Fetch(s: Session): (r: Session)
  {
    s.(src := Source(s.src.lastPacket, if s.src.incomplete then s.src.size else 0, false, true))
  }

  /** `tftp_session_handle_event`, apart from the bookkeeping of `pending_jobs`. */
  function React(s: Session, e: Event): (r: Reaction)
    requires ValidSession(s) && Deliverable(s, e)
  {
    var d := Dispatch(s, e);
    if ShouldFetch(d.s) then Reaction(Fetch(d.s), d.acts + [Submit(OpRead)]) else d
  }

  /** `tftp_session_init`. */
  function InitialSession(cfg: Config, ring: seq<Slot>): (r: Session)
  {
    Session(cfg, Window(1, 1), Source(-1, 0, false, false), Control(false, 0, false, false),
            Rtt(false, 0), Sink(1, []), ring)
  }

  // ------------------------------------------------ socket and dispatcher

  /** Outstanding operations, `pending_jobs`, every packet sent, and the
      number of round-trip samples taken. */
  datatype Io = Io(outstanding: multiset<Op>, pendingJobs: uint8, sent: seq<Packet>, samples: nat)

  function PerformOne(io: Io, a: Action): (r: Io)
  {
    match a
    case Send(p) => io.(sent := io.sent + [p])
    case Submit(op) => io.(outstanding := io.outstanding + multiset{op}, pendingJobs := Wrap8(io.pendingJobs + 1))
    case Sample => io.(samples := io.samples + 1)
  }

  function Perform(io: Io, acts: seq<Action>): (r: Io)
  {
    if acts == [] then io else PerformOne(Perform(io, acts[..|acts| - 1]), acts[|acts| - 1])
  }

  /** The counted operation an event completes. The pool submits the start
      event, which the session does not count. */
  function Completed(e: Event): (r: multiset<Op>)
  {
    match e
    case Start(_) => multiset{}
    case Timeout(_) => multiset{OpTimeout}
    case TimeoutRemoved => multiset{OpTimeoutRemove}
    case PacketReceived(_) => multiset{OpRecv}
    case PacketReceivedRemoved => multiset{OpRecvCancel}
    case DataAvailable(_, _, _) => multiset{OpRead}
  }

  function Complete(io: Io, e: Event): (r: Io)
  {
    if e.Start? then io
    else io.(outstanding := io.outstanding - Completed(e), pendingJobs := Wrap8(io.pendingJobs - 1))
  }

  datatype Ctx = Ctx(s: Session, io: Io)

  /** The end of a read completes the block, and the session sends it. */
  predicate SendsBlock(s: Session, e: Event)
  {
    e.DataAvailable? && e.success && (|e.bytes| >= s.cfg.blockSize || e.atEof)
  }

  /** The time-out makes the session retransmit. */
  predicate Retransmits(s: Session, e: Event)
  {
    && e == Timeout(false) && !s.ctl.shouldClose && s.ctl.timerActive
    && s.ctl.retransmission < s.cfg.retries
  }

  /** There is an OACK, an acknowledgement or a block to send again. */
  predicate SomethingToResend(s: Session)
  {
    OackPending(s) || s.cfg.request == Write || s.win.begin != s.win.next
  }

  /** The handler returns. On an empty window its retransmission loop does not
      end: the worker never handles another event. */
  predicate Returns(s: Session, e: Event)
  {
    Retransmits(s, e) ==> SomethingToResend(s)
  }

  /** The dispatcher may deliver the event. */
  predicate MayArrive(c: Ctx, e: Event)
  {
    && ValidSession(c.s)
    && Deliverable(c.s, e)
    && Completed(e) <= c.io.outstanding
  }

  /** And it leads to a next state. */
  predicate Enabled(c: Ctx, e: Event)
  {
    MayArrive(c, e) && Returns(c.s, e)
  }

  function HandleEvent(c: Ctx, e: Event): (r: Ctx)
    requires Enabled(c, e)
  {
    var r := React(c.s, e);
    Ctx(r.s, Perform(Complete(c.io, e), r.acts))
  }

  /** The session answers CLOSED instead of IDLE. */
  predicate ReportsClosed(c: Ctx)
  {
    c.s.ctl.shouldClose && c.io.pendingJobs == 0
  }

  function InitialCtx(cfg: Config, ring: seq<Slot>): (r: Ctx)
  {
    Ctx(InitialSession(cfg, ring), Io(multiset{}, 0, [], 0))
  }
}
