/**
 Write requests that complete: every file of at most 65534 blocks has a run
 after which the client has succeeded.
 */
module PutCompletion {
  import opened BlockNumbers
  import opened FileBlocks
  import opened Packets
  import opened Session
  import opened SessionJobs
  import opened PutTransfer
  import opened PutTheorems
  import F = FileSender
  import G = GoBackN
  import I = SenderInvariant
  import R = Receiver

  function Block(cfg: F.SenderConfig, k: uint16): (p: Packet)
    requires 1 <= k
  {
    Data(k, BlockOf(cfg.file, cfg.blockSize, k))
  }

  /** Every block before the next one has been sent. */
  predicate SentCovers(cfg: F.SenderConfig, r: F.FileSender)
  {
    forall k: uint16 :: 1 <= k < r.next ==> Block(cfg, k) in r.sent
  }

  lemma FillOneCovers(cfg: F.SenderConfig, r: F.FileSender)
    requires I.SenderInv(cfg, r) && F.CanFill(cfg, r) && SentCovers(cfg, r)
    ensures SentCovers(cfg, F.FillOne(cfg, r))
  {
    hide I.RingHolds, I.SentRel, F.CanFill, BlockOf, SlotOf, Wrap16, LastBlock, Offset;
    var r' := F.FillOne(cfg, r);
    I.FillTest(cfg, r);
    I.NextBlockIs(cfg, r);
    I.FillOneAdvances(cfg, r);
    assert r'.sent == r.sent + [Block(cfg, r.next)];
    forall k: uint16 | 1 <= k < r'.next ensures Block(cfg, k) in r'.sent {
      if k == r.next {
        assert r'.sent[|r.sent|] == Block(cfg, k);
      }
    }
  }

  lemma {:induction false} FillCovers(cfg: F.SenderConfig, r: F.FileSender)
    requires I.SenderInv(cfg, r) && r.status == R.Running && SentCovers(cfg, r)
    ensures SentCovers(cfg, F.Fill(cfg, r))
    decreases if F.CanFill(cfg, r) then F.Room(cfg, r) + 1 else 0
  {
    if F.CanFill(cfg, r) {
      I.FillOneKeeps(cfg, r);
      F.FillOneNarrows(cfg, r);
      FillOneCovers(cfg, r);
      hide I.SenderInv, F.CanFill, F.FillOne, SentCovers;
      FillCovers(cfg, F.FillOne(cfg, r));
    }
  }

  lemma NotFailed(r: F.FileSender, a: uint16)
    requires r.status == R.Running
    ensures F.OnAck(r, a).status != R.Failed
  {
    hide IsInRange, Wrap16;
  }

  lemma SameCovers(cfg: F.SenderConfig, r: F.FileSender, r': F.FileSender)
    requires SentCovers(cfg, r) && r'.next == r.next && r'.sent == r.sent
    ensures SentCovers(cfg, r')
  {
  }

  /** The acknowledgement of the oldest block of the window. */
  lemma AckTurn(cfg: F.SenderConfig, r: F.FileSender)
    requires I.TurnInv(cfg, r) && r.status == R.Running && SentCovers(cfg, r)
    ensures var last, r' := LastBlock(cfg.file, cfg.blockSize), F.Turn(cfg, r, R.Received(Ack(r.begin), R.WriteOk));
            && r.begin <= last
            && (if r.begin == last then r'.status == R.Succeeded
                else r'.status == R.Running && r'.begin == r.begin + 1 && SentCovers(cfg, r'))
  {
    hide I.RingHolds, I.SentRel, F.CanFill, BlockOf, LastBlock, Offset, F.Fill, F.OnAck, I.ValidStart, F.ValidSender, SentCovers;
    I.AckStep(cfg, r, r.begin);
    NotFailed(r, r.begin);
    var r1 := F.OnAck(r, r.begin);
    assert r1 == F.Receive(cfg, r, R.Received(Ack(r.begin), R.WriteOk));
    if r1.status == R.Running {
      SameCovers(cfg, r, r1);
      I.FillKeeps(cfg, r1);
      FillCovers(cfg, r1);
    }
  }

  // ---------------------------------------------------------- one block more

  /** Client and server wait for each other at block `k`. */
  predicate AtBlock(g: PutConfig, y: System, k: nat)
  {
    && Inv(g, y) && y.answered
    && y.client.status == R.Running && SentCovers(g.client, y.client)
    && y.client.begin == k == y.c.s.sink.expected
    && !y.c.s.ctl.shouldClose && OpRecv in y.c.io.outstanding
    && PacketsOf(y.client.sent) <= y.toServer
  }

  /** The server takes the block it expects, answers, and waits for the next
      one unless it is short. */
  lemma DataTaken(c: Ctx, k: uint16, payload: seq<byte>)
    requires ValidSession(c.s) && c.s.cfg.request == Write && !c.s.ctl.shouldClose && OpRecv in c.io.outstanding
    requires c.s.sink.expected == k
    ensures var e := PacketReceived(FromPeer(Data(k, payload)));
            && Enabled(c, e) && Ack(k) in Sends(React(c.s, e).acts)
            && (var c' := HandleEvent(c, e);
                && c'.s.sink.expected == Wrap16(k + 1)
                && c'.s.ctl.shouldClose == (|payload| < c.s.cfg.blockSize)
                && (!c'.s.ctl.shouldClose ==> OpRecv in c'.io.outstanding))
  {
    hide Wrap16, Perform, Sends;
    var e := PacketReceived(FromPeer(Data(k, payload)));
    var r := React(c.s, e);
    assert r.acts[0] == Send(Ack(k));
    SendIsSent(r.acts, Ack(k));
    if |payload| >= c.s.cfg.blockSize {
      assert r.acts[1] == Submit(OpRecv);
      SubmittedIsOutstanding(Complete(c.io, e), r.acts);
    }
  }

  /** One block more: the server receives it, and the client its answer. */
  function OneBlock(g: PutConfig, k: uint16): (run: seq<Step>)
    requires 1 <= k
  {
    [SessionEvent(PacketReceived(FromPeer(Block(g.client, k)))), ClientTurn(R.Received(Ack(k), R.WriteOk))]
  }

  lemma OpenReports(c: Ctx)
    requires !c.s.ctl.shouldClose
    ensures !ReportsClosed(c)
  {
  }

  lemma BlockIsFull(cfg: F.SenderConfig, k: nat)
    requires 1 <= cfg.blockSize && 1 <= k < LastBlock(cfg.file, cfg.blockSize)
    ensures |BlockOf(cfg.file, cfg.blockSize, k)| == cfg.blockSize
  {
    LastBlockIsLast(cfg.file, cfg.blockSize);
    BlockExistsIff(cfg.file, cfg.blockSize, k);
    ShortBlockIsLast(cfg.file, cfg.blockSize, k);
    if IsLastBlock(cfg.file, cfg.blockSize, k) {
      LastBlockUnique(cfg.file, cfg.blockSize, k, LastBlock(cfg.file, cfg.blockSize));
    }
    hide LastBlock, Offset;
  }

  lemma ServerTakes(g: PutConfig, y: System, k: nat)
    requires AtBlock(g, y, k)
    ensures 1 <= k <= LastBlock(g.client.file, g.client.blockSize) <= 65534
    ensures var t := OneBlock(g, k)[0];
            && Can(y, t)
            && (var y' := Next(g, y, t);
                && Inv(g, y') && y'.answered && y'.client == y.client && Ack(k) in y'.toClient && PacketsOf(y'.client.sent) <= y'.toServer
                && y'.c.s.sink.expected == k + 1
                && (k < LastBlock(g.client.file, g.client.blockSize) ==>
                      !y'.c.s.ctl.shouldClose && OpRecv in y'.c.io.outstanding))
  {
    hide I.RingHolds, I.SentRel, I.BudgetRel, BlockOf, LastBlock, Offset, HandleEvent, React, FirstBlocks, ToServerRel, ToClientRel,
      ReportsClosed, Enabled, Sends;
    var e := PacketReceived(FromPeer(Block(g.client, k)));
    assert Block(g.client, k) in y.toServer;
    DataTaken(y.c, k, Block(g.client, k).payload);
    OpenReports(y.c);
    if k < LastBlock(g.client.file, g.client.blockSize) {
      BlockIsFull(g.client, k);
    }
    SmallNumber(k + 1);
    EventInv(g, y, e);
    hide Inv;
  }

  lemma ClientTakes(g: PutConfig, y: System, k: nat)
    requires ValidPut(g) && 1 <= k <= LastBlock(g.client.file, g.client.blockSize) <= 65534
    requires Inv(g, y) && y.answered && y.client.status == R.Running && SentCovers(g.client, y.client) && y.client.begin == k
    requires Ack(k) in y.toClient && y.c.s.sink.expected == k + 1
    requires k < LastBlock(g.client.file, g.client.blockSize) ==> !y.c.s.ctl.shouldClose && OpRecv in y.c.io.outstanding
    requires PacketsOf(y.client.sent) <= y.toServer
    ensures var t := OneBlock(g, k)[1];
            && Can(y, t)
            && (if k == LastBlock(g.client.file, g.client.blockSize)
                then Next(g, y, t).client.status == R.Succeeded
                else AtBlock(g, Next(g, y, t), k + 1))
  {
    hide F.Turn, SentCovers, LastBlock, BlockOf, SinkRel, ToServerRel, ToClientRel, I.NumbersRel, I.RingHolds, I.SentRel;
    AckTurn(g.client, y.client);
    ClientTurnInv(g, y, R.Received(Ack(k), R.WriteOk));
    hide Inv;
  }

  lemma RunStep(g: PutConfig, serverRing: seq<Slot>, clientRing: seq<Slot>, run: seq<Step>, t: Step)
    requires ValidPut(g) && ValidRings(g, serverRing, clientRing) && ValidRun(g, serverRing, clientRing, run)
    requires Can(Exec(g, serverRing, clientRing, run), t)
    ensures ValidRun(g, serverRing, clientRing, run + [t])
    ensures Exec(g, serverRing, clientRing, run + [t]) == Next(g, Exec(g, serverRing, clientRing, run), t)
  {
    assert (run + [t])[..|run + [t]| - 1] == run;
    hide Can, Next, ValidPut, ValidRings;
  }

  lemma BlockStep(g: PutConfig, serverRing: seq<Slot>, clientRing: seq<Slot>, run: seq<Step>, k: nat)
    requires ValidPut(g) && ValidRings(g, serverRing, clientRing) && ValidRun(g, serverRing, clientRing, run)
    requires AtBlock(g, Exec(g, serverRing, clientRing, run), k)
    ensures 1 <= k <= LastBlock(g.client.file, g.client.blockSize) <= 65534
    ensures var run' := run + OneBlock(g, k);
            && ValidRun(g, serverRing, clientRing, run')
            && (if k == LastBlock(g.client.file, g.client.blockSize)
                then Exec(g, serverRing, clientRing, run').client.status == R.Succeeded
                else AtBlock(g, Exec(g, serverRing, clientRing, run'), k + 1))
  {
    hide Can, Next, ValidPut, ValidRings, ValidRun, Exec, LastBlock, Block, Inv, SentCovers;
    var y := Exec(g, serverRing, clientRing, run);
    ServerTakes(g, y, k);
    var a, b := OneBlock(g, k)[0], OneBlock(g, k)[1];
    ClientTakes(g, Next(g, y, a), k);
    RunStep(g, serverRing, clientRing, run, a);
    RunStep(g, serverRing, clientRing, run + [a], b);
    assert run + [a] + [b] == run + OneBlock(g, k);
    hide AtBlock;
  }

  // ---------------------------------------------------------- the whole file

  /** The answer to the request. */
  function Answer(g: PutConfig): (p: Packet)
  {
    if g.session.optionsRequired then Oack else Ack(0)
  }

  /** The run in which nothing is lost, up to and with block `n`. */
  function BlocksToServer(g: PutConfig, n: nat): (run: seq<Step>)
    requires n <= 65535
  {
    if n == 0 then [ClientStarts(Answer(g))] else BlocksToServer(g, n - 1) + OneBlock(g, n)
  }

  lemma ServerStarts(g: PutConfig, c: Ctx)
    requires Enabled(c, Start(true)) && c.s.cfg == g.session && c.s.cfg.request == Write
    requires !c.s.ctl.shouldClose && !c.s.ctl.optionsAcked
    ensures var c' := HandleEvent(c, Start(true));
            !c'.s.ctl.shouldClose && c'.s.sink == c.s.sink && OpRecv in c'.io.outstanding
    ensures Answer(g) in Sends(React(c.s, Start(true)).acts)
  {
    hide Perform, Sends;
    var r := React(c.s, Start(true));
    assert r.acts[|r.acts| - 1] == Submit(OpRecv);
    SubmittedIsOutstanding(Complete(c.io, Start(true)), r.acts);
    assert r.acts[if g.session.optionsRequired then 1 else 0] == Send(Answer(g));
    SendIsSent(r.acts, Answer(g));
  }

  lemma FirstWindowCovers(cfg: F.SenderConfig, ring: seq<Slot>)
    requires I.ValidStart(cfg, ring)
    ensures SentCovers(cfg, F.Fill(cfg, F.InitialSender(ring)))
  {
    I.StartKeeps(cfg, ring);
    FillCovers(cfg, F.InitialSender(ring));
    hide I.SenderInv, F.Fill;
  }

  /** The client starts sending when the server's answer has arrived. */
  lemma StartsAtOne(g: PutConfig, serverRing: seq<Slot>, clientRing: seq<Slot>)
    requires ValidPut(g) && ValidRings(g, serverRing, clientRing)
    ensures var y := Initial(g, serverRing, clientRing);
            && Can(y, ClientStarts(Answer(g)))
            && AtBlock(g, Next(g, y, ClientStarts(Answer(g))), 1)
  {
    hide F.Fill, SentCovers, Inv, Wrap16, Perform, Sends, React, HandleEvent, I.TurnInv, I.SenderInv;
    InitialInv(g, serverRing, clientRing);
    ServerStarts(g, InitialCtx(g.session, serverRing));
    NothingSentYet(g, clientRing);
    FirstWindowSent(g, F.InitialSender(clientRing));
    FirstWindowCovers(g.client, clientRing);
    ClientStartsInv(g, Initial(g, serverRing, clientRing), Answer(g));
  }

  lemma NoSteps(g: PutConfig, serverRing: seq<Slot>, clientRing: seq<Slot>)
    requires ValidPut(g) && ValidRings(g, serverRing, clientRing)
    ensures ValidRun(g, serverRing, clientRing, [])
    ensures Exec(g, serverRing, clientRing, []) == Initial(g, serverRing, clientRing)
  {
    hide Initial, ValidPut, ValidRings;
  }

  lemma {:induction false} BlocksReach(g: PutConfig, serverRing: seq<Slot>, clientRing: seq<Slot>, n: nat)
    requires ValidPut(g) && ValidRings(g, serverRing, clientRing)
    requires n < LastBlock(g.client.file, g.client.blockSize) <= 65534
    ensures ValidRun(g, serverRing, clientRing, BlocksToServer(g, n))
    ensures AtBlock(g, Exec(g, serverRing, clientRing, BlocksToServer(g, n)), n + 1)
  {
    hide LastBlock, AtBlock, OneBlock, ValidPut, ValidRings, ValidRun, Exec, Can, Next, Initial;
    if n == 0 {
      NoSteps(g, serverRing, clientRing);
      StartsAtOne(g, serverRing, clientRing);
      RunStep(g, serverRing, clientRing, [], ClientStarts(Answer(g)));
      assert [] + [ClientStarts(Answer(g))] == BlocksToServer(g, 0);
    } else {
      BlocksReach(g, serverRing, clientRing, n - 1);
      BlockStep(g, serverRing, clientRing, BlocksToServer(g, n - 1), n);
    }
  }

  lemma AtLeastOne(g: PutConfig)
    requires ValidPut(g)
    ensures 1 <= LastBlock(g.client.file, g.client.blockSize) <= 65534
  {
  }

  /** Every write request, of any file of at most 65534 blocks and with any
      window and options, has a run after which the client has succeeded. */
  lemma PutCompletes(g: PutConfig, serverRing: seq<Slot>, clientRing: seq<Slot>)
    requires ValidPut(g) && ValidRings(g, serverRing, clientRing)
    ensures exists run ::
              && ValidRun(g, serverRing, clientRing, run)
              && Exec(g, serverRing, clientRing, run).client.status == R.Succeeded
              && Exec(g, serverRing, clientRing, run).c.s.sink.written == g.client.file
  {
    hide LastBlock, AtBlock, OneBlock, ValidRings, ValidRun, Exec, I.Sendable;
    var last: nat := LastBlock(g.client.file, g.client.blockSize);
    AtLeastOne(g);
    BlocksReach(g, serverRing, clientRing, last - 1);
    BlockStep(g, serverRing, clientRing, BlocksToServer(g, last - 1), last);
    PutSafety(g, serverRing, clientRing, BlocksToServer(g, last - 1) + OneBlock(g, last));
  }
}
