/**
 Read requests block by block: what one read, one loss, one delivery and one
 acknowledgement lead to, whatever the window and the ring.
 */
module GetFlow {
  import opened BlockNumbers
  import opened RingSlots
  import opened FileBlocks
  import opened Packets
  import opened Session
  import opened SessionJobs
  import opened GoBackN
  import opened GetTransfer
  import R = Receiver

  // ------------------------------------------------------------- the session

  /** Blocks `b` to `n - 1` are in the window, and block `n` is being read if
      there is room for it. */
  predicate Streaming(cfg: Config, c: Ctx, b: nat, n: nat)
  {
    var s := c.s;
    && ValidSession(s) && s.cfg == cfg && cfg.request == Read
    && 1 <= b <= n <= b + cfg.windowSize
    && s.win == Window(Wrap16(b), Wrap16(n))
    && !s.ctl.shouldClose && !OackPending(s) && s.ctl.retransmission == 0
    && s.src.lastPacket == -1 && !s.src.incomplete
    && (s.src.fetching <==> n < b + cfg.windowSize)
    && (s.src.fetching ==> s.src.size == 0 && OpRead in c.io.outstanding)
    && OpRecv in c.io.outstanding
    && (b < n ==> s.ctl.timerActive && OpTimeout in c.io.outstanding)
  }

  lemma SumOfNumbers(b: int, d: int)
    ensures Wrap16(Wrap16(b) + d) == Wrap16(b + d)
  {
  }

  /** On the circle, `n` has room exactly when it has room. */
  lemma RoomInWindow(b: nat, n: nat, w: uint16)
    requires b <= n <= b + w && 1 <= w
    ensures IsInRange(Wrap16(n), Wrap16(b), Wrap16(Wrap16(b) + w - 1)) <==> n < b + w
  {
    hide IsInRange, Wrap16;
    SumOfNumbers(b, w - 1);
    IsInRangeMeasuresDistance(n, b, b + w);
    SmallNumber(n - b);
  }

  lemma Apart(b: nat, n: nat, w: uint16)
    requires b <= n < b + w
    ensures Wrap16(b) == Wrap16(n) <==> b == n
  {
    Wrap16Injective(b, n);
    hide Wrap16;
  }

  /** What the session makes of a full block. */
  lemma FullBlockDispatch(s: Session, bytes: seq<byte>, atEof: bool)
    requires ValidSession(s) && s.src.size == 0 && |bytes| == s.cfg.blockSize
    ensures var d := Dispatch(s, DataAvailable(true, bytes, atEof));
            && ValidSession(d.s) && d.s.cfg == s.cfg
            && d.s.win == s.win.(next := Wrap16(s.win.next + 1))
            && d.s.src == s.src.(size := s.cfg.blockSize as nat, fetching := false)
            && d.s.ctl == (if s.win.begin == s.win.next then s.ctl.(timerActive := true) else s.ctl)
            && d.acts == [Send(Data(s.win.next, bytes))] + (if s.win.begin == s.win.next then [Submit(OpTimeout)] else [])
            && (forall i :: 0 <= i < |s.ring| ==>
                  d.s.ring[i].block == if i == SlotOf(s.win.next, s.cfg.windowSize) then s.win.next else s.ring[i].block)
  {
    hide Wrap16, SlotOf;
    var filled := FillSlot(s.(src := s.src.(fetching := false)), bytes);
    assert filled.ring[SlotOf(s.win.next, s.cfg.windowSize)].data[..|bytes|] == bytes;
  }

  lemma BlockSends(p: Packet, first: bool, fetches: bool)
    ensures Sends([Send(p)] + (if first then [Submit(OpTimeout)] else [])) == [p]
    ensures Sends([Send(p)] + (if first then [Submit(OpTimeout)] else []) + [Submit(OpRead)]) == [p]
  {
    SendsConcat([Send(p)], if first then [Submit(OpTimeout)] else []);
    SendsConcat([Send(p)] + (if first then [Submit(OpTimeout)] else []), [Submit(OpRead)]);
  }

  /** A completed read of a full block, in a window with room. */
  lemma FullBlockRead(cfg: Config, c: Ctx, b: nat, n: nat, bytes: seq<byte>, atEof: bool)
    requires Streaming(cfg, c, b, n) && n < b + cfg.windowSize && |bytes| == cfg.blockSize
    ensures var e := DataAvailable(true, bytes, atEof);
            && Enabled(c, e)
            && Streaming(cfg, HandleEvent(c, e), b, n + 1)
            && Sends(React(c.s, e).acts) == [Data(Wrap16(n), bytes)]
            && (forall i :: 0 <= i < |c.s.ring| ==>
                  HandleEvent(c, e).s.ring[i].block ==
                    if i == SlotOf(Wrap16(n), cfg.windowSize) then Wrap16(n) else c.s.ring[i].block)
  {
    hide Wrap16, IsInRange, SlotOf, Perform, Dispatch, Sends;
    var e := DataAvailable(true, bytes, atEof);
    var d, io := Dispatch(c.s, e), Complete(c.io, e);
    Apart(b, n, cfg.windowSize);
    NextNumber(n);
    FullBlockDispatch(c.s, bytes, atEof);
    RoomInWindow(b, n + 1, cfg.windowSize);
    SubmittedIsOutstanding(io, React(c.s, e).acts);
    BlockSends(Data(Wrap16(n), bytes), b == n, n + 1 < b + cfg.windowSize);
    assert OpRecv in io.outstanding && (b < n ==> OpTimeout in io.outstanding);
    if b == n {
      assert d.acts[1] == Submit(OpTimeout);
    }
  }

  /** A window of one block holds its number. */
  lemma OwnNumber(n: nat)
    ensures IsInRange(Wrap16(n), Wrap16(n), Wrap16(Wrap16(n + 1) - 1))
  {
  }

  lemma NothingSent(sample: seq<Action>)
    requires sample == [] || sample == [Sample]
    ensures Sends(sample + [Submit(OpTimeoutRemove)] + [] + [Submit(OpRecv)]) == []
  {
    SendsConcat(sample + [Submit(OpTimeoutRemove)] + [], [Submit(OpRecv)]);
    SendsConcat(sample, [Submit(OpTimeoutRemove)]);
    assert sample + [Submit(OpTimeoutRemove)] + [] == sample + [Submit(OpTimeoutRemove)];
  }

  lemma AckDispatch(s: Session, n: nat)
    requires ValidSession(s) && s.cfg.request == Read && !s.ctl.shouldClose && !OackPending(s)
    requires s.src.lastPacket == -1 && s.win == Window(Wrap16(n), Wrap16(n + 1))
    ensures var d := Dispatch(s, PacketReceived(FromPeer(Ack(Wrap16(n)))));
            && d.s.cfg == s.cfg && d.s.ring == s.ring && d.s.src == s.src
            && d.s.win == Window(Wrap16(n + 1), Wrap16(n + 1))
            && !d.s.ctl.shouldClose && !OackPending(d.s) && d.s.ctl.retransmission == 0
            && Sends(d.acts) == [] && Submit(OpRecv) in d.acts
  {
    hide Wrap16, IsInRange, Sends;
    NextNumber(n);
    OwnNumber(n);
    var sample := if s.cfg.adaptive && s.rtt.active && IsInRange(Wrap16(n), s.rtt.block, Wrap16(s.win.next - 1)) then [Sample] else [];
    var acts := sample + [Submit(OpTimeoutRemove)] + [];
    assert OnAck(s, Wrap16(n)).acts == acts;
    NothingSent(sample);
    var d := Dispatch(s, PacketReceived(FromPeer(Ack(Wrap16(n)))));
    assert d.acts == acts + [Submit(OpRecv)];
    assert d.acts[|acts|] == Submit(OpRecv);
  }

  lemma FetchSubmits(d: Reaction)
    ensures Submit(OpRead) in d.acts + [Submit(OpRead)]
  {
    assert (d.acts + [Submit(OpRead)])[|d.acts|] == Submit(OpRead);
  }

  lemma ThenReads(acts: seq<Action>)
    ensures Sends(acts + [Submit(OpRead)]) == Sends(acts)
  {
    SendsConcat(acts, [Submit(OpRead)]);
    assert Sends([Submit(OpRead)]) == [];
  }

  /** The acknowledgement of the only block of the window. */
  lemma BlockAcknowledged(cfg: Config, c: Ctx, n: nat)
    requires Streaming(cfg, c, n, n + 1)
    ensures var e := PacketReceived(FromPeer(Ack(Wrap16(n))));
            && Enabled(c, e)
            && Streaming(cfg, HandleEvent(c, e), n + 1, n + 1)
            && Sends(React(c.s, e).acts) == []
  {
    hide Wrap16, IsInRange, SlotOf, Perform, Dispatch, Sends;
    var e := PacketReceived(FromPeer(Ack(Wrap16(n))));
    var d, io := Dispatch(c.s, e), Complete(c.io, e);
    AckDispatch(c.s, n);
    RoomInWindow(n + 1, n + 1, cfg.windowSize);
    ThenReads(d.acts);
    SubmittedIsOutstanding(io, React(c.s, e).acts);
    assert c.s.src.fetching ==> OpRead in io.outstanding;
    assert Submit(OpRecv) in React(c.s, e).acts;
    FetchSubmits(d);
  }

  // --------------------------------------------------- the end of the file

  /** Part of block `n`, `had`, is in its slot, and the rest is being read. */
  predicate Filling(cfg: Config, c: Ctx, b: nat, n: nat, had: seq<byte>)
  {
    var s := c.s;
    && ValidSession(s) && s.cfg == cfg && cfg.request == Read
    && 1 <= b <= n < b + cfg.windowSize
    && s.win == Window(Wrap16(b), Wrap16(n))
    && !s.ctl.shouldClose && !OackPending(s) && s.ctl.retransmission == 0
    && s.src == Source(-1, |had|, false, true) && OpRead in c.io.outstanding
    && (b < n ==> s.ctl.timerActive && OpTimeout in c.io.outstanding)
    && s.ring[SlotOf(s.win.next, cfg.windowSize)].data[..|had|] == had
  }

  /** Blocks `b` to `n - 1` are in the window, and may be sent again. */
  predicate Held(cfg: Config, c: Ctx, b: nat, n: nat)
  {
    var s := c.s;
    && ValidSession(s) && s.cfg == cfg && cfg.request == Read
    && 1 <= b < n <= b + cfg.windowSize
    && s.win == Window(Wrap16(b), Wrap16(n))
    && !s.ctl.shouldClose && !OackPending(s) && s.ctl.retransmission == 0
    && s.ctl.timerActive && OpTimeout in c.io.outstanding
  }

  /** What the session makes of the rest of a short block. */
  lemma ShortBlockDispatch(s: Session, had: seq<byte>, bytes: seq<byte>)
    requires ValidSession(s) && s.src.size == |had| && |had| + |bytes| < s.cfg.blockSize
    requires s.ring[SlotOf(s.win.next, s.cfg.windowSize)].data[..|had|] == had
    ensures var d := Dispatch(s, DataAvailable(true, bytes, true));
            && ValidSession(d.s) && d.s.cfg == s.cfg
            && d.s.win == s.win.(next := Wrap16(s.win.next + 1))
            && d.s.src.lastPacket == s.win.next
            && d.s.ctl == (if s.win.begin == s.win.next then s.ctl.(timerActive := true) else s.ctl)
            && d.acts == [Send(Data(s.win.next, had + bytes))] + (if s.win.begin == s.win.next then [Submit(OpTimeout)] else [])
            && d.s.ring[SlotOf(s.win.next, s.cfg.windowSize)].block == s.win.next
  {
    hide Wrap16, SlotOf;
    var filled := FillSlot(s.(src := s.src.(fetching := false)), bytes);
    assert filled.ring[SlotOf(s.win.next, s.cfg.windowSize)].data[..|had| + |bytes|] == had + bytes;
  }

  /** A read that ends at the end of the file before the block is full. */
  lemma ShortBlockRead(cfg: Config, c: Ctx, b: nat, n: nat, had: seq<byte>, bytes: seq<byte>)
    requires Filling(cfg, c, b, n, had) && |had| + |bytes| < cfg.blockSize
    ensures var e := DataAvailable(true, bytes, true);
            && Enabled(c, e) && Sends(React(c.s, e).acts) == [Data(Wrap16(n), had + bytes)]
            && Held(cfg, HandleEvent(c, e), b, n + 1)
            && HandleEvent(c, e).s.src.lastPacket == Wrap16(n)
            && HandleEvent(c, e).s.ring[SlotOf(Wrap16(n), cfg.windowSize)].block == Wrap16(n)
  {
    hide Wrap16, IsInRange, SlotOf, Sends, Perform, Dispatch;
    var e := DataAvailable(true, bytes, true);
    var d, io := Dispatch(c.s, e), Complete(c.io, e);
    Apart(b, n, cfg.windowSize);
    NextNumber(n);
    ShortBlockDispatch(c.s, had, bytes);
    SubmittedIsOutstanding(io, React(c.s, e).acts);
    BlockSends(Data(Wrap16(n), had + bytes), b == n, false);
    assert b < n ==> OpTimeout in io.outstanding;
    if b == n {
      assert d.acts[1] == Submit(OpTimeout);
    }
  }

  /** On a file that cannot be seeked a short read is continued. */
  lemma PartOfBlockRead(cfg: Config, c: Ctx, b: nat, n: nat, bytes: seq<byte>)
    requires Filling(cfg, c, b, n, []) && |bytes| < cfg.blockSize
    ensures var e := DataAvailable(true, bytes, false);
            && Enabled(c, e) && Sends(React(c.s, e).acts) == []
            && Filling(cfg, HandleEvent(c, e), b, n, bytes)
  {
    hide Wrap16, IsInRange, SlotOf, Sends, Perform;
    var e := DataAvailable(true, bytes, false);
    var filled := FillSlot(c.s.(src := c.s.src.(fetching := false)), bytes);
    assert filled.ring[SlotOf(c.s.win.next, c.s.cfg.windowSize)].data[..|bytes|] == bytes;
    RoomInWindow(b, n, c.s.cfg.windowSize);
    ThenReads([]);
    SubmittedIsOutstanding(Complete(c.io, e), [] + [Submit(OpRead)]);
    FetchSubmits(Reaction(c.s, []));
    assert Sends([]) == [] by { EmptySends(); }
    assert b < n ==> OpTimeout in Complete(c.io, e).outstanding;
  }

  // -------------------------------------------------------------- the system

  function Last(g: GetConfig): (n: nat)
    requires ValidConfig(g.session)
  {
    LastBlock(g.file, g.session.blockSize)
  }

  function DataOf(g: GetConfig, n: nat): (p: Packet)
    requires 1 <= n
  {
    Data(Wrap16(n), BlockOf(g.file, g.session.blockSize, n))
  }

  /** The client has the blocks before `n` and waits for block `n`. */
  predicate Waiting(g: GetConfig, r: R.Receiver, n: nat)
  {
    && r.status == R.Running && 1 <= n && r.expected == Wrap16(n)
    && r.out == FirstBlocks(g.file, g.session.blockSize, n - 1)
    && (if r.isFirst then g.session.blockSize == DEFAULT_BLKSIZE && !(g.client.useOptions && g.client.listRequested)
        else r.blockSize == g.session.blockSize)
  }

  /** Blocks before `b` have been acknowledged, those before `n` sent. */
  predicate Sending(g: GetConfig, y: System, b: nat, n: nat)
  {
    && Streaming(g.session, y.c, b, n)
    && n <= Last(g) && y.pos == Offset(g.session.blockSize, n - 1)
    && y.toServer == []
  }

  /** And those before `b` are all that the client has received. */
  predicate Flow(g: GetConfig, y: System, b: nat, n: nat)
  {
    Sending(g, y, b, n) && Waiting(g, y.client, b)
  }

  lemma BlockIsThere(g: GetConfig, n: nat)
    requires ValidConfig(g.session) && 1 <= n <= Last(g)
    ensures var bs: nat, p, len := g.session.blockSize, Offset(g.session.blockSize, n - 1), |BlockOf(g.file, g.session.blockSize, n)|;
            && p + len <= |g.file| && BlockOf(g.file, bs, n) == g.file[p..p + len] && len <= bs
            && (n < Last(g) ==> len == bs && Offset(bs, n) == p + len)
            && (n == Last(g) ==> len < bs && p + len == |g.file| && FirstBlocks(g.file, bs, n) == g.file)
            && FirstBlocks(g.file, bs, n - 1) + BlockOf(g.file, bs, n) == FirstBlocks(g.file, bs, n)
  {
    var bs: nat := g.session.blockSize;
    BlockExistsIff(g.file, bs, n);
    LastBlockIsLast(g.file, bs);
    ShortBlockIsLast(g.file, bs, n);
    FirstBlocksExtend(g.file, bs, n - 1);
    if IsLastBlock(g.file, bs, n) {
      LastBlockUnique(g.file, bs, n, Last(g));
    }
    hide LastBlock;
  }

  lemma NotClosed(c: Ctx)
    requires !c.s.ctl.shouldClose
    ensures !ReportsClosed(c)
  {
  }

  /** A full block is read and sent. */
  lemma ReadBlock(g: GetConfig, y: System, b: nat, n: nat)
    requires Sending(g, y, b, n) && y.toClient == [] && n < b + g.session.windowSize && n < Last(g)
    ensures var t := ReadDone(g.session.blockSize);
            && Can(g, y, t)
            && (var y' := Next(g, y, t);
                && Sending(g, y', b, n + 1) && y'.toClient == [DataOf(g, n)] && y'.client == y.client
                && (forall i :: 0 <= i < |y.c.s.ring| ==>
                      y'.c.s.ring[i].block ==
                        if i == SlotOf(Wrap16(n), g.session.windowSize) then Wrap16(n) else y.c.s.ring[i].block))
  {
    hide HandleEvent, React, Sends, Enabled, Waiting, Offset, BlockOf, FirstBlocks, LastBlock, SlotOf, Wrap16, Completed;
    BlockIsThere(g, n);
    var e := ReadEvent(g, y, g.session.blockSize);
    FullBlockRead(g.session, y.c, b, n, e.bytes, e.atEof);
    NotClosed(y.c);
  }

  /** The client takes the block it waits for; a short one ends the transfer. */
  lemma BlockReceived(g: GetConfig, r: R.Receiver, n: nat)
    requires ValidConfig(g.session) && Waiting(g, r, n) && n <= Last(g)
    ensures var r' := R.Step(g.client, r, R.Received(DataOf(g, n), R.WriteOk));
            && r'.sent == r.sent + [Ack(Wrap16(n))]
            && (if n == Last(g) then r'.status == R.Succeeded && r'.out == g.file else Waiting(g, r', n + 1))
  {
    hide Wrap16, FirstBlocks, BlockOf, LastBlock, Offset;
    BlockIsThere(g, n);
    NextNumber(n);
  }

  /** Nothing is lost: the block reaches the client and its acknowledgement the
      session. */
  lemma Delivered(g: GetConfig, y: System, n: nat)
    requires Flow(g, y, n, n + 1) && y.toClient == [DataOf(g, n)]
    ensures Can(g, y, ClientReceives(R.WriteOk))
    ensures var y1 := Next(g, y, ClientReceives(R.WriteOk));
            && Can(g, y1, PacketArrives)
            && Flow(g, Next(g, y1, PacketArrives), n + 1, n + 1) && Next(g, y1, PacketArrives).toClient == []
  {
    hide HandleEvent, React, Sends, Enabled, Offset, BlockOf, FirstBlocks, LastBlock, Wrap16, Completed, R.Step, DataOf;
    BlockReceived(g, y.client, n);
    BlockAcknowledged(g.session, y.c, n);
    NotClosed(y.c);
    var y1 := Next(g, y, ClientReceives(R.WriteOk));
    assert y1.toServer == [Ack(Wrap16(n))];
    hide Streaming;
  }

  lemma AtLeastOne(g: GetConfig)
    requires ValidConfig(g.session)
    ensures 1 <= Last(g)
  {
  }

  /** The short block is received. */
  lemma LastDelivered(g: GetConfig, y: System)
    requires ValidConfig(g.session) && Waiting(g, y.client, Last(g)) && y.toClient == [DataOf(g, Last(g))]
    ensures Can(g, y, ClientReceives(R.WriteOk))
    ensures var client := Next(g, y, ClientReceives(R.WriteOk)).client;
            client.status == R.Succeeded && client.out == g.file
  {
    hide R.Step, DataOf, LastBlock;
    AtLeastOne(g);
    BlockReceived(g, y.client, Last(g));
  }

  /** A block that was sent is lost. */
  lemma BlockLost(g: GetConfig, y: System, b: nat, n: nat)
    requires Flow(g, y, b, n) && |y.toClient| == 1
    ensures Can(g, y, LoseToClient(0))
    ensures var y' := Next(g, y, LoseToClient(0));
            Flow(g, y', b, n) && y' == y.(toClient := [])
  {
    hide Streaming, Waiting, LastBlock;
  }
}
