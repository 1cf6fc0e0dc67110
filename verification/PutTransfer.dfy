/**
 A write request in full: the sending client, one server session, and a
 network that may lose, duplicate and reorder packets at will.
 */
module PutTransfer {
  import opened BlockNumbers
  import opened FileBlocks
  import opened Packets
  import opened Session
  import opened SessionJobs
  import F = FileSender
  import I = SenderInvariant
  import R = Receiver

  datatype PutConfig = PutConfig(session: Config, client: F.SenderConfig)

  /** Both ends use the same block size, and the file has at most 65534 blocks. */
  predicate ValidPut(g: PutConfig)
  {
    && ValidConfig(g.session) && g.session.request == Write
    && I.Sendable(g.client)
    && g.session.blockSize == g.client.blockSize
  }

  predicate ValidRings(g: PutConfig, serverRing: seq<Slot>, clientRing: seq<Slot>)
  {
    && ValidSession(InitialSession(g.session, serverRing))
    && I.ValidStart(g.client, clientRing)
  }

  /** Packets are never removed from the network: each may arrive any number
      of times, in any order, or never. The client sends its file once it has
      the answer to its request. */
  datatype System = System(c: Ctx, client: F.FileSender, answered: bool, toServer: set<Packet>, toClient: set<Packet>)

  datatype Step =
    | SessionEvent(e: Event)     // a packet of the peer must be in the network
    | ClientStarts(p: Packet)    // the answer to the request arrives
    | ClientGivesUp              // or it does not
    | ClientTurn(o: R.Outcome)

  /** What `handle_put_request` waits for: acknowledgement 0, or the OACK. */
  predicate IsAnswer(p: Packet)
  {
    p == Oack || p == Ack(0)
  }

  function PacketsOf(ps: seq<Packet>): (r: set<Packet>)
  {
    set p | p in ps
  }

  predicate Can(y: System, t: Step)
  {
    match t
    case SessionEvent(e) =>
      && !ReportsClosed(y.c) && Enabled(y.c, e) && !e.Start? && !e.DataAvailable?
      && (e.PacketReceived? && e.arrival.FromPeer? ==> e.arrival.packet in y.toServer)
    case ClientStarts(p) => !y.answered && y.client.status == R.Running && IsAnswer(p) && p in y.toClient
    case ClientGivesUp => !y.answered
    case ClientTurn(o) => y.answered && (o.Received? ==> o.packet in y.toClient)
  }

  function Handle(y: System, e: Event): (r: System)
    requires Enabled(y.c, e)
  {
    y.(c := HandleEvent(y.c, e), toClient := y.toClient + PacketsOf(Sends(React(y.c.s, e).acts)))
  }

  function Next(g: PutConfig, y: System, t: Step): (r: System)
    requires Can(y, t) && F.ValidSender(g.client, y.client)
    ensures F.ValidSender(g.client, r.client)
  {
    match t
    case SessionEvent(e) => Handle(y, e)
    case ClientStarts(_) =>
      F.FillValid(g.client, y.client);
      var client := F.Fill(g.client, y.client);
      y.(client := client, answered := true, toServer := y.toServer + PacketsOf(client.sent))
    case ClientGivesUp => y.(client := y.client.(status := R.Failed))
    case ClientTurn(o) =>
      var client := F.Turn(g.client, y.client, o);
      y.(client := client, toServer := y.toServer + PacketsOf(client.sent))
  }

  /** The request has been accepted. */
  function Initial(g: PutConfig, serverRing: seq<Slot>, clientRing: seq<Slot>): (r: System)
    requires ValidPut(g) && ValidRings(g, serverRing, clientRing)
    ensures F.ValidSender(g.client, r.client)
  {
    Handle(System(InitialCtx(g.session, serverRing), F.InitialSender(clientRing), false, {}, {}), Start(true))
  }

  predicate ValidRun(g: PutConfig, serverRing: seq<Slot>, clientRing: seq<Slot>, run: seq<Step>)
    requires ValidPut(g) && ValidRings(g, serverRing, clientRing)
    decreases |run|, 0
  {
    run == [] || (ValidRun(g, serverRing, clientRing, run[..|run| - 1])
                  && Can(Exec(g, serverRing, clientRing, run[..|run| - 1]), run[|run| - 1]))
  }

  function Exec(g: PutConfig, serverRing: seq<Slot>, clientRing: seq<Slot>, run: seq<Step>): (r: System)
    requires ValidPut(g) && ValidRings(g, serverRing, clientRing)
    requires ValidRun(g, serverRing, clientRing, run)
    ensures F.ValidSender(g.client, r.client)
    decreases |run|, 1
  {
    if run == [] then Initial(g, serverRing, clientRing)
    else Next(g, Exec(g, serverRing, clientRing, run[..|run| - 1]), run[|run| - 1])
  }

  // -------------------------------------------------------------- invariant

  /** The server has written exactly the blocks before the one it expects. */
  predicate SinkRel(g: PutConfig, s: Session, next: nat)
  {
    && ValidSession(s) && s.cfg == g.session && s.cfg.request == Write
    && 1 <= s.sink.expected <= next <= 65535
    && (OackPending(s) ==> s.sink.expected == 1)
    && s.sink.written == FirstBlocks(g.client.file, g.client.blockSize, s.sink.expected - 1)
  }

  /** Every packet to the server is a block already sent. */
  predicate ToServerRel(g: PutConfig, ps: set<Packet>, next: nat)
  {
    forall p :: p in ps ==> I.IsBlock(g.client, p, next)
  }

  /** Every acknowledgement in the network is of a block already written. */
  predicate ToClientRel(ps: set<Packet>, expected: nat)
  {
    forall p :: p in ps ==> p.Ack? ==> p.block < expected
  }

  /** The sending phase has not begun. */
  predicate NothingSent(g: PutConfig, r: F.FileSender)
  {
    && I.SenderInv(g.client, r.(status := R.Running))
    && r.begin == 1 && r.next == 1 && !r.eof && r.sent == [] && r.rounds == 0 && r.retransmissions == 0
    && r.status != R.Succeeded
  }

  predicate ClientRel(g: PutConfig, r: F.FileSender, answered: bool)
  {
    if answered then I.TurnInv(g.client, r) else NothingSent(g, r)
  }

  /** What the client knows to be acknowledged has been written. */
  predicate Inv(g: PutConfig, y: System)
  {
    && ValidPut(g)
    && ClientRel(g, y.client, y.answered)
    && SinkRel(g, y.c.s, y.client.next)
    && ToServerRel(g, y.toServer, y.client.next)
    && ToClientRel(y.toClient, y.c.s.sink.expected)
    && y.client.begin <= y.c.s.sink.expected
  }
}
