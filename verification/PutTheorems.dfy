/**
 What holds in every run of a write request.
 */
module PutTheorems {
  import opened BlockNumbers
  import opened FileBlocks
  import opened Packets
  import opened Session
  import opened SessionJobs
  import opened PutTransfer
  import F = FileSender
  import I = SenderInvariant
  import R = Receiver

  predicate AllAnswers(acts: seq<Action>, expected: nat)
  {
    forall i :: 0 <= i < |acts| && acts[i].Send? && acts[i].packet.Ack? ==> acts[i].packet.block < expected
  }

  /** The block the server expects continues the file it writes. */
  lemma SinkExtends(g: PutConfig, s: Session, p: Packet, next: nat)
    requires ValidPut(g) && SinkRel(g, s, next) && I.IsBlock(g.client, p, next)
    requires next <= LastBlock(g.client.file, g.client.blockSize) + 1
    ensures SinkRel(g, OnData(s, p.block, p.payload).s, next)
    ensures AllAnswers(OnData(s, p.block, p.payload).acts, OnData(s, p.block, p.payload).s.sink.expected)
    ensures s.sink.expected <= OnData(s, p.block, p.payload).s.sink.expected
  {
    var k: nat := p.block;
    if k == s.sink.expected {
      BlockExistsIff(g.client.file, g.client.blockSize, k);
      FirstBlocksExtend(g.client.file, g.client.blockSize, k - 1);
    }
    hide BlockOf, FirstBlocks, Offset, LastBlock, I.Sendable;
  }

  lemma QuietArrival(s: Session, a: Arrival)
    requires !a.FromPeer?
    ensures OnArrival(s, a).s == s && AllAnswers(OnArrival(s, a).acts, 0)
  {
  }

  lemma DataPacket(g: PutConfig, p: Packet, next: nat)
    requires I.IsBlock(g.client, p, next)
    ensures p.Data?
  {
  }

  /** The block a packet carries is taken, if it is the expected one. */
  lemma PacketKeepsSink(g: PutConfig, s: Session, p: Packet, next: nat)
    requires ValidPut(g) && SinkRel(g, s, next) && I.IsBlock(g.client, p, next)
    requires next <= LastBlock(g.client.file, g.client.blockSize) + 1
    ensures var r := OnArrival(s, FromPeer(p));
            && SinkRel(g, r.s, next) && AllAnswers(r.acts, r.s.sink.expected)
            && s.sink.expected <= r.s.sink.expected
  {
    hide OnData, FirstBlocks, I.IsBlock, LastBlock, I.Sendable, BlockOf;
    assert p.Data? by { DataPacket(g, p, next); }
    SinkExtends(g, s, p, next);
  }

  lemma TimeoutKeepsSink(g: PutConfig, s: Session, next: nat)
    requires SinkRel(g, s, next)
    ensures SinkRel(g, OnTimeout(s).s, next) && AllAnswers(OnTimeout(s).acts, s.sink.expected)
    ensures OnTimeout(s).s.sink == s.sink
  {
    hide FirstBlocks, WindowPackets;
  }

  lemma DispatchKeepsSink(g: PutConfig, s: Session, e: Event, next: nat)
    requires ValidPut(g) && SinkRel(g, s, next) && Deliverable(s, e) && !e.Start? && !e.DataAvailable?
    requires e.PacketReceived? && e.arrival.FromPeer? ==> I.IsBlock(g.client, e.arrival.packet, next)
    requires next <= LastBlock(g.client.file, g.client.blockSize) + 1
    ensures var r := Dispatch(s, e);
            && SinkRel(g, r.s, next) && AllAnswers(r.acts, r.s.sink.expected)
            && s.sink.expected <= r.s.sink.expected
  {
    hide OnArrival, OnTimeout, SinkRel, I.IsBlock, LastBlock, I.Sendable;
    match e
    case Timeout(_) => TimeoutKeepsSink(g, s, next);
    case PacketReceived(a) =>
      if a.FromPeer? {
        PacketKeepsSink(g, s, a.packet, next);
      } else {
        QuietArrival(s, a);
      }
    case _ =>
  }

  lemma EventKeepsSink(g: PutConfig, y: System, e: Event)
    requires Inv(g, y) && Enabled(y.c, e) && !e.Start? && !e.DataAvailable?
    requires e.PacketReceived? && e.arrival.FromPeer? ==> e.arrival.packet in y.toServer
    ensures var r := React(y.c.s, e);
            && SinkRel(g, r.s, y.client.next) && AllAnswers(r.acts, r.s.sink.expected)
            && y.c.s.sink.expected <= r.s.sink.expected
  {
    hide Dispatch, FirstBlocks, I.IsBlock, I.RingHolds, I.SentRel, ToClientRel, BlockOf, LastBlock, Offset, IsInRange;
    assert e.PacketReceived? && e.arrival.FromPeer? ==> I.IsBlock(g.client, e.arrival.packet, y.client.next);
    DispatchKeepsSink(g, y.c.s, e, y.client.next);
  }

  lemma EventInv(g: PutConfig, y: System, e: Event)
    requires Inv(g, y) && Can(y, SessionEvent(e))
    ensures Inv(g, Next(g, y, SessionEvent(e)))
  {
    EventKeepsSink(g, y, e);
    var r := React(y.c.s, e);
    forall p | p in PacketsOf(Sends(r.acts)) && p.Ack? ensures p.block < r.s.sink.expected {
      SentAreSends(r.acts, p);
    }
    hide React, SinkRel, I.TurnInv, ToServerRel, ValidPut, Sends, Perform;
  }

  /** The client's window moves only over blocks the server has written. */
  lemma TurnWindow(g: PutConfig, y: System, o: R.Outcome)
    requires Inv(g, y) && Can(y, ClientTurn(o))
    ensures var client := F.Turn(g.client, y.client, o);
            client.begin <= y.c.s.sink.expected && y.client.next <= client.next <= 65535
  {
    var r := y.client;
    if r.status == R.Running {
      I.ReceiveKeeps(g.client, r, o);
      var r1 := F.Receive(g.client, r, o);
      if o.Received? && o.packet.Ack? {
        I.AckStep(g.client, r, o.packet.block);
      }
      if r1.status == R.Running {
        I.FillKeeps(g.client, r1);
      }
    }
    hide F.Fill, F.OnAck, I.RingHolds, I.SentRel, I.BudgetRel, FirstBlocks, F.ResentWindow, SinkRel;
  }

  /** What the client has sent joins what is on its way. */
  lemma ToServerGrows(g: PutConfig, ps: set<Packet>, client: F.FileSender, next: nat)
    requires ToServerRel(g, ps, next) && next <= client.next && I.SentRel(g.client, client)
    ensures ToServerRel(g, ps + PacketsOf(client.sent), client.next)
  {
    hide BlockOf;
    forall p | p in ps ensures I.IsBlock(g.client, p, client.next) {
      assert I.IsBlock(g.client, p, next);
    }
    assert forall p :: p in client.sent ==> I.IsBlock(g.client, p, client.next);
  }

  lemma ClientTurnInv(g: PutConfig, y: System, o: R.Outcome)
    requires Inv(g, y) && Can(y, ClientTurn(o))
    ensures Inv(g, Next(g, y, ClientTurn(o)))
  {
    hide F.Turn, I.SentRel, I.NumbersRel, I.RingHolds, I.BudgetRel, ToServerRel, FirstBlocks, BlockOf, LastBlock, I.Sendable, Wrap16;
    I.TurnKeeps(g.client, y.client, o);
    TurnWindow(g, y, o);
    ToServerGrows(g, y.toServer, F.Turn(g.client, y.client, o), y.client.next);
  }

  lemma {:induction false} FillBegin(cfg: F.SenderConfig, r: F.FileSender)
    requires F.ValidSender(cfg, r)
    ensures F.Fill(cfg, r).begin == r.begin
    decreases if F.CanFill(cfg, r) then F.Room(cfg, r) + 1 else 0
  {
    if F.CanFill(cfg, r) {
      F.FillOneNarrows(cfg, r);
      FillBegin(cfg, F.FillOne(cfg, r));
    }
  }

  /** The first window of the client. */
  lemma FirstWindowSent(g: PutConfig, r: F.FileSender)
    requires ValidPut(g) && NothingSent(g, r) && r.status == R.Running
    ensures var r' := F.Fill(g.client, r);
            I.TurnInv(g.client, r') && r'.status == R.Running && r'.begin == 1 && 1 <= r'.next <= 65535
  {
    hide I.RingHolds, I.SentRel, F.Fill;
    I.FillKeeps(g.client, r);
    I.FillSettles(g.client, r);
    FillBegin(g.client, r);
  }

  lemma ClientStartsInv(g: PutConfig, y: System, p: Packet)
    requires Inv(g, y) && Can(y, ClientStarts(p))
    ensures Inv(g, Next(g, y, ClientStarts(p)))
  {
    hide F.Fill, I.SentRel, I.NumbersRel, I.RingHolds, I.BudgetRel, ToServerRel, FirstBlocks, BlockOf, LastBlock, I.Sendable;
    FirstWindowSent(g, y.client);
    ToServerGrows(g, y.toServer, F.Fill(g.client, y.client), y.client.next);
  }

  lemma ClientGivesUpInv(g: PutConfig, y: System)
    requires Inv(g, y) && Can(y, ClientGivesUp)
    ensures Inv(g, Next(g, y, ClientGivesUp))
  {
    hide I.SenderInv, ToServerRel, ToClientRel, SinkRel, ValidPut;
  }

  lemma NothingSentYet(g: PutConfig, clientRing: seq<Slot>)
    requires ValidPut(g) && I.ValidStart(g.client, clientRing)
    ensures NothingSent(g, F.InitialSender(clientRing))
  {
    I.StartKeeps(g.client, clientRing);
    hide I.SenderInv;
  }

  lemma InitialInv(g: PutConfig, serverRing: seq<Slot>, clientRing: seq<Slot>)
    requires ValidPut(g) && ValidRings(g, serverRing, clientRing)
    ensures Inv(g, Initial(g, serverRing, clientRing))
  {
    var r := React(InitialSession(g.session, serverRing), Start(true));
    forall p | p in PacketsOf(Sends(r.acts)) && p.Ack? ensures p.block < 1 {
      SentAreSends(r.acts, p);
    }
    NothingSentYet(g, clientRing);
    hide NothingSent, Sends, Perform;
  }

  lemma StepInv(g: PutConfig, y: System, t: Step)
    requires Inv(g, y) && Can(y, t) && F.ValidSender(g.client, y.client)
    ensures Inv(g, Next(g, y, t))
  {
    hide Inv, Next;
    match t
    case SessionEvent(e) => EventInv(g, y, e);
    case ClientStarts(p) => ClientStartsInv(g, y, p);
    case ClientGivesUp => ClientGivesUpInv(g, y);
    case ClientTurn(o) => ClientTurnInv(g, y, o);
  }

  lemma {:induction false} RunInv(g: PutConfig, serverRing: seq<Slot>, clientRing: seq<Slot>, run: seq<Step>)
    requires ValidPut(g) && ValidRings(g, serverRing, clientRing)
    requires ValidRun(g, serverRing, clientRing, run)
    ensures Inv(g, Exec(g, serverRing, clientRing, run))
  {
    hide Inv, Next, Can, ValidPut, ValidRings, Initial;
    if run == [] {
      InitialInv(g, serverRing, clientRing);
    } else {
      var before := run[..|run| - 1];
      RunInv(g, serverRing, clientRing, before);
      StepInv(g, Exec(g, serverRing, clientRing, before), run[|run| - 1]);
    }
  }

  // ------------------------------------------------------------- guarantees

  lemma InvSafety(g: PutConfig, y: System)
    requires Inv(g, y)
    ensures y.c.s.sink.written <= g.client.file
    ensures y.client.status == R.Succeeded ==> y.c.s.sink.written == g.client.file
  {
    hide I.RingHolds, I.SentRel, ToServerRel, ToClientRel, BlockOf, LastBlock, I.BudgetRel;
    var bs: nat := g.client.blockSize;
    LastBlockIsLast(g.client.file, bs);
    ShortBlockIsLast(g.client.file, bs, LastBlock(g.client.file, bs));
  }

  /** The file written by the server is always a prefix of the client's file,
      and it is the whole file when `send_file` returns true. */
  lemma PutSafety(g: PutConfig, serverRing: seq<Slot>, clientRing: seq<Slot>, run: seq<Step>)
    requires ValidPut(g) && ValidRings(g, serverRing, clientRing)
    requires ValidRun(g, serverRing, clientRing, run)
    ensures var y := Exec(g, serverRing, clientRing, run);
            && y.c.s.sink.written <= g.client.file
            && (y.client.status == R.Succeeded ==> y.c.s.sink.written == g.client.file)
  {
    hide Inv, ValidPut, ValidRings;
    RunInv(g, serverRing, clientRing, run);
    InvSafety(g, Exec(g, serverRing, clientRing, run));
  }
}
