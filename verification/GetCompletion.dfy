/**
 Which read requests can complete: exactly those whose client accepts the
 answer of the server.
 */
module GetCompletion {
  import opened BlockNumbers
  import opened FileBlocks
  import opened Packets
  import opened Session
  import opened SessionJobs
  import opened GoBackN
  import opened GetTransfer
  import opened GetTheorems
  import opened GetFlow
  import opened GetRefusal
  import R = Receiver

  // ------------------------------------------------------------ the beginning

  /** With options the OACK is delivered and acknowledged first. */
  function Opening(g: GetConfig): (run: seq<Step>)
  {
    if g.session.optionsRequired then [ClientReceives(R.WriteOk), PacketArrives] else []
  }

  lemma NothingYet(g: GetConfig)
    ensures FirstBlocks(g.file, g.session.blockSize, 0) == []
  {
  }

  lemma StartWithoutOptions(g: GetConfig, ring: seq<Slot>)
    requires Agreed(g) && ValidRing(g, ring) && !g.session.optionsRequired && ClientAccepts(g)
    ensures var y := Initial(g, ring); Flow(g, y, 1, 1) && y.toClient == []
  {
    hide Wrap16, Perform, Sends, LastBlock, FirstBlocks;
    var c := InitialCtx(g.session, ring);
    SmallNumber(1);
    RoomInWindow(1, 1, g.session.windowSize);
    var acts := [Submit(OpRecv)] + [Submit(OpRead)];
    assert React(c.s, Start(true)).acts == acts;
    assert acts[0] == Submit(OpRecv) && acts[1] == Submit(OpRead);
    SubmittedIsOutstanding(c.io, acts);
    ThenReads([Submit(OpRecv)]);
    StartSends();
    AtLeastOne(g);
    NothingYet(g);
  }

  /** The session waits for the acknowledgement of its OACK. */
  predicate OackSent(cfg: Config, c: Ctx)
  {
    var s := c.s;
    && ValidSession(s) && s.cfg == cfg && cfg.request == Read
    && OackPending(s) && !s.ctl.shouldClose
    && s.win == Window(1, 1) && s.src == Source(-1, 0, false, false)
    && OpRecv in c.io.outstanding
  }

  lemma StartWithOptions(g: GetConfig, ring: seq<Slot>)
    requires Agreed(g) && ValidRing(g, ring) && g.session.optionsRequired
    ensures var y := Initial(g, ring);
            && y.toClient == [Oack] && y.toServer == [] && y.pos == 0
            && y.client == R.InitialReceiver(g.client)
            && OackSent(g.session, y.c)
  {
    hide Wrap16, Perform, Sends, IsInRange;
    var c := InitialCtx(g.session, ring);
    var acts := React(c.s, Start(true)).acts;
    assert acts[2] == Submit(OpRecv);
    SubmittedIsOutstanding(c.io, acts);
    StartSends();
  }

  lemma OackAcknowledged(cfg: Config, c: Ctx)
    requires OackSent(cfg, c)
    ensures var e := PacketReceived(FromPeer(Ack(0)));
            && Enabled(c, e)
            && Streaming(cfg, HandleEvent(c, e), 1, 1)
            && Sends(React(c.s, e).acts) == []
  {
    hide Wrap16, IsInRange, SlotOf, Perform, Sends;
    var e := PacketReceived(FromPeer(Ack(0)));
    SmallNumber(1);
    RoomInWindow(1, 1, cfg.windowSize);
    var sample := if OnAck(c.s, 0).acts[0].Sample? then [Sample] else [];
    var acts := sample + [Submit(OpTimeoutRemove)] + [];
    assert OnAck(c.s, 0).acts == acts;
    var d := Dispatch(c.s, e);
    assert d.acts == acts + [Submit(OpRecv)];
    assert d.acts[|acts|] == Submit(OpRecv);
    NothingSent(sample);
    ThenReads(d.acts);
    FetchSubmits(d);
    SubmittedIsOutstanding(Complete(c.io, e), React(c.s, e).acts);
  }

  lemma OackDelivered(g: GetConfig, y: System)
    requires Agreed(g) && g.session.optionsRequired && ClientAccepts(g)
    requires y.toClient == [Oack] && y.toServer == [] && y.pos == 0
    requires y.client == R.InitialReceiver(g.client) && OackSent(g.session, y.c)
    ensures Can(g, y, ClientReceives(R.WriteOk))
    ensures var y1 := Next(g, y, ClientReceives(R.WriteOk));
            && Can(g, y1, PacketArrives)
            && Flow(g, Next(g, y1, PacketArrives), 1, 1) && Next(g, y1, PacketArrives).toClient == []
  {
    hide HandleEvent, React, Sends, Enabled, LastBlock, FirstBlocks, Completed, Wrap16;
    OackAcknowledged(g.session, y.c);
    NotClosed(y.c);
    SmallNumber(1);
    AtLeastOne(g);
    NothingYet(g);
    var y1 := Next(g, y, ClientReceives(R.WriteOk));
    assert y1.toServer == [Ack(0)];
    hide Streaming;
  }

  lemma Opened(g: GetConfig, ring: seq<Slot>)
    requires Agreed(g) && ValidRing(g, ring) && ClientAccepts(g)
    ensures ValidRun(g, ring, Opening(g))
    ensures var y := Exec(g, ring, Opening(g)); Flow(g, y, 1, 1) && y.toClient == []
  {
    hide Agreed, ValidRing, ClientAccepts, Can, Next, Flow, Initial, OackSent;
    if g.session.optionsRequired {
      StartWithOptions(g, ring);
      OackDelivered(g, Exec(g, ring, []));
      RunStep(g, ring, [], ClientReceives(R.WriteOk));
      RunStep(g, ring, [] + [ClientReceives(R.WriteOk)], PacketArrives);
      assert [] + [ClientReceives(R.WriteOk)] + [PacketArrives] == Opening(g);
    } else {
      StartWithoutOptions(g, ring);
    }
  }

  // ------------------------------------------------------------ block by block

  /** One block is read, delivered and acknowledged. */
  function OneBlock(g: GetConfig): (run: seq<Step>)
  {
    [ReadDone(g.session.blockSize), ClientReceives(R.WriteOk), PacketArrives]
  }

  function FirstBlocksDelivered(g: GetConfig, n: nat): (run: seq<Step>)
  {
    if n == 0 then Opening(g) else FirstBlocksDelivered(g, n - 1) + OneBlock(g)
  }

  lemma BlockStep(g: GetConfig, ring: seq<Slot>, run: seq<Step>, n: nat)
    requires Agreed(g) && ValidRing(g, ring) && ValidRun(g, ring, run) && n < Last(g)
    requires var y := Exec(g, ring, run); Flow(g, y, n, n) && y.toClient == []
    ensures ValidRun(g, ring, run + OneBlock(g))
    ensures var y := Exec(g, ring, run + OneBlock(g)); Flow(g, y, n + 1, n + 1) && y.toClient == []
  {
    hide ValidRing, Can, Next, ValidRun, Exec, DataOf, Waiting, LastBlock;
    var y := Exec(g, ring, run);
    var a, b, d := ReadDone(g.session.blockSize), ClientReceives(R.WriteOk), PacketArrives;
    ReadBlock(g, y, n, n);
    Delivered(g, Next(g, y, a), n);
    RunStep(g, ring, run, a);
    RunStep(g, ring, run + [a], b);
    RunStep(g, ring, run + [a] + [b], d);
    assert run + [a] + [b] + [d] == run + OneBlock(g);
    hide Flow;
  }

  lemma {:induction false} BlocksDelivered(g: GetConfig, ring: seq<Slot>, n: nat)
    requires Agreed(g) && ValidRing(g, ring) && ClientAccepts(g) && n < Last(g)
    ensures ValidRun(g, ring, FirstBlocksDelivered(g, n))
    ensures var y := Exec(g, ring, FirstBlocksDelivered(g, n)); Flow(g, y, n + 1, n + 1) && y.toClient == []
  {
    hide Agreed, ValidRing, ClientAccepts, ValidRun, Exec, Flow, OneBlock, LastBlock, Opening;
    if n == 0 {
      Opened(g, ring);
    } else {
      BlocksDelivered(g, ring, n - 1);
      BlockStep(g, ring, FirstBlocksDelivered(g, n - 1), n);
    }
  }

  // ------------------------------------------------------------- the last block

  function LastLength(g: GetConfig): (len: nat)
    requires ValidConfig(g.session)
  {
    AtLeastOne(g);
    |BlockOf(g.file, g.session.blockSize, Last(g))|
  }

  /** A file that cannot be seeked ends only with a read of nothing. */
  function LastReads(g: GetConfig): (run: seq<Step>)
    requires ValidConfig(g.session)
  {
    [ReadDone(LastLength(g))] + if g.seekable || LastLength(g) == 0 then [] else [ReadDone(0)]
  }

  /** The last block has just been sent, into the slot and the window of its own. */
  predicate AllSent(g: GetConfig, y: System, b: nat)
    requires ValidConfig(g.session)
  {
    AtLeastOne(g);
    && Held(g.session, y.c, b, Last(g) + 1)
    && y.c.s.src.lastPacket == Wrap16(Last(g))
    && y.c.s.ring[SlotOf(Wrap16(Last(g)), g.session.windowSize)].block == Wrap16(Last(g))
    && y.toClient == [DataOf(g, Last(g))]
  }

  /** Where the last block starts. */
  predicate AtLast(g: GetConfig, y: System, b: nat)
  {
    && ValidConfig(g.session) && Sending(g, y, b, Last(g)) && Last(g) < b + g.session.windowSize
    && y.toClient == []
  }

  lemma StreamingFills(cfg: Config, c: Ctx, b: nat, n: nat)
    requires Streaming(cfg, c, b, n) && n < b + cfg.windowSize
    ensures Filling(cfg, c, b, n, [])
  {
  }

  lemma LastReadAtOnce(g: GetConfig, y: System, b: nat)
    requires AtLast(g, y, b) && (g.seekable || LastLength(g) == 0)
    ensures var t := ReadDone(LastLength(g));
            Can(g, y, t) && AllSent(g, Next(g, y, t), b) && Next(g, y, t).client == y.client
  {
    hide HandleEvent, React, Sends, Enabled, Offset, BlockOf, FirstBlocks, LastBlock, SlotOf, Wrap16, Completed;
    var n := Last(g);
    BlockIsThere(g, n);
    var e := ReadEvent(g, y, LastLength(g));
    StreamingFills(g.session, y.c, b, n);
    ShortBlockRead(g.session, y.c, b, n, [], e.bytes);
    assert [] + e.bytes == e.bytes;
    NotClosed(y.c);
    hide Streaming, Filling, Held;
  }

  lemma LastReadInParts(g: GetConfig, y: System, b: nat)
    requires AtLast(g, y, b) && !g.seekable && LastLength(g) > 0
    ensures var t := ReadDone(LastLength(g));
            && Can(g, y, t)
            && (var y1 := Next(g, y, t);
                && Can(g, y1, ReadDone(0))
                && AllSent(g, Next(g, y1, ReadDone(0)), b) && Next(g, y1, ReadDone(0)).client == y.client)
  {
    hide HandleEvent, React, Sends, Enabled, Offset, BlockOf, FirstBlocks, LastBlock, SlotOf, Wrap16, Completed;
    var n := Last(g);
    BlockIsThere(g, n);
    var e := ReadEvent(g, y, LastLength(g));
    StreamingFills(g.session, y.c, b, n);
    PartOfBlockRead(g.session, y.c, b, n, e.bytes);
    var y1 := Next(g, y, ReadDone(LastLength(g)));
    assert ReadEvent(g, y1, 0) == DataAvailable(true, [], true);
    ShortBlockRead(g.session, y1.c, b, n, e.bytes, []);
    assert e.bytes + [] == e.bytes;
    NotClosed(y.c);
    NotClosed(y1.c);
    hide Streaming, Filling, Held;
  }

  /** The last block is read and sent, in one read or two. */
  lemma LastRead(g: GetConfig, ring: seq<Slot>, run: seq<Step>, b: nat)
    requires ValidConfig(g.session) && ValidRing(g, ring) && ValidRun(g, ring, run) && AtLast(g, Exec(g, ring, run), b)
    ensures ValidRun(g, ring, run + LastReads(g))
    ensures AllSent(g, Exec(g, ring, run + LastReads(g)), b)
    ensures Exec(g, ring, run + LastReads(g)).client == Exec(g, ring, run).client
  {
    hide ValidRing, Can, Next, ValidRun, Exec, LastLength, AtLast, AllSent;
    var y, t := Exec(g, ring, run), ReadDone(LastLength(g));
    if g.seekable || LastLength(g) == 0 {
      LastReadAtOnce(g, y, b);
      assert LastReads(g) == [t];
    } else {
      LastReadInParts(g, y, b);
      assert LastReads(g) == [t, ReadDone(0)];
      RunStep(g, ring, run + [t], ReadDone(0)) by { RunStep(g, ring, run, t); }
      assert run + [t] + [ReadDone(0)] == run + LastReads(g);
    }
    RunStep(g, ring, run, t);
  }

  lemma LastStep(g: GetConfig, ring: seq<Slot>, run: seq<Step>)
    requires ValidConfig(g.session) && ValidRing(g, ring) && ValidRun(g, ring, run)
    requires Flow(g, Exec(g, ring, run), Last(g), Last(g)) && Exec(g, ring, run).toClient == []
    ensures var run' := run + LastReads(g) + [ClientReceives(R.WriteOk)];
            && ValidRun(g, ring, run')
            && Exec(g, ring, run').client.status == R.Succeeded
            && Exec(g, ring, run').client.out == g.file
  {
    hide ValidRing, Can, Next, ValidRun, Exec, DataOf, Sending, Held, LastBlock, Waiting, LastReads;
    LastRead(g, ring, run, Last(g));
    LastDelivered(g, Exec(g, ring, run + LastReads(g)));
    RunStep(g, ring, run + LastReads(g), ClientReceives(R.WriteOk));
  }

  /** Nothing is lost, from the first packet to the last. */
  function CompleteRun(g: GetConfig): (run: seq<Step>)
    requires ValidConfig(g.session)
  {
    AtLeastOne(g);
    FirstBlocksDelivered(g, Last(g) - 1) + LastReads(g) + [ClientReceives(R.WriteOk)]
  }

  /** If the client accepts the answer, the run in which nothing is lost brings
      it the whole file, of any size, with any options and any ring. */
  lemma GetCompletes(g: GetConfig, ring: seq<Slot>)
    requires Agreed(g) && ValidRing(g, ring) && ClientAccepts(g)
    ensures ValidRun(g, ring, CompleteRun(g))
    ensures var client := Exec(g, ring, CompleteRun(g)).client;
            client.status == R.Succeeded && client.out == g.file
  {
    hide ValidRing, ClientAccepts, ValidRun, Exec, FirstBlocksDelivered, LastReads, LastBlock, Flow;
    AtLeastOne(g);
    BlocksDelivered(g, ring, Last(g) - 1);
    LastStep(g, ring, FirstBlocksDelivered(g, Last(g) - 1));
  }

  /** A read request can complete if and only if its client accepts the answer. */
  lemma GetCompletesIff(g: GetConfig, ring: seq<Slot>)
    requires Agreed(g) && ValidRing(g, ring)
    ensures (exists run :: ValidRun(g, ring, run) && Exec(g, ring, run).client.status == R.Succeeded) <==> ClientAccepts(g)
  {
    hide Agreed, ValidRing, ClientAccepts, ValidRun, Exec, CompleteRun;
    if ClientAccepts(g) {
      GetCompletes(g, ring);
    } else {
      forall run | ValidRun(g, ring, run) ensures Exec(g, ring, run).client.status != R.Succeeded {
        RefusingRun(g, ring, run);
      }
    }
  }
}
