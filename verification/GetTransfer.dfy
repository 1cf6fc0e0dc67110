/**
 A read request in full: a server session, the receiving client and two
 channels that keep the order of packets but may lose any of them.
 */
module GetTransfer {
  import opened BlockNumbers
  import opened RingSlots
  import opened FileBlocks
  import opened Packets
  import opened Session
  import opened SessionJobs
  import opened GoBackN
  import R = Receiver

  datatype GetConfig = GetConfig(session: Config, client: R.ReceiverConfig, file: seq<byte>, seekable: bool)

  /** What the two ends have agreed on before the first block. */
  predicate Agreed(g: GetConfig)
  {
    && ValidConfig(g.session)
    && g.session.request == Read
    && (if g.session.optionsRequired
        then g.client.oack.OackAccepted? ==> g.client.oack.blockSize == g.session.blockSize
        else g.session.blockSize == DEFAULT_BLKSIZE && g.session.windowSize == 1)
  }

  /** The ring holds every window of the transfer, or nothing is ever sent again. */
  predicate RingFits(g: GetConfig)
  {
    && ValidConfig(g.session)
    && (RingSafe(g.session.windowSize, LastBlock(g.file, g.session.blockSize)) || g.session.retries == 0)
  }

  predicate ValidGet(g: GetConfig)
  {
    Agreed(g) && RingFits(g)
  }

  /** The client accepts the OACK, or did not ask for a list that only an OACK
      could grant. */
  predicate ClientAccepts(g: GetConfig)
  {
    if g.session.optionsRequired then g.client.oack.OackAccepted?
    else !(g.client.useOptions && g.client.listRequested)
  }

  predicate ValidRing(g: GetConfig, ring: seq<Slot>)
  {
    && ValidConfig(g.session)
    && |ring| == g.session.windowSize
    && forall i :: 0 <= i < |ring| ==> |ring[i].data| == g.session.blockSize
  }

  /** `pos` is the offset of the server's file descriptor. */
  datatype System = System(c: Ctx, pos: nat, toClient: seq<Packet>, toServer: seq<Packet>, client: R.Receiver)

  datatype Step =
    | SessionEvent(e: Event)                   // any completion that carries no data of this transfer
    | ReadDone(count: nat)
    | ReadFailed
    | KernelWrites(bytes: seq<byte>)           // the read in progress touches its part of the slot
    | PacketArrives                            // oldest packet of the client reaches the session
    | LoseToClient(i: nat)
    | LoseToServer(i: nat)
    | ClientReceives(local: R.Write)           // oldest packet of the server reaches the client
    | ClientEvent(o: R.Outcome)                // time-out, receive error or a packet of a stranger

  function ReadEvent(g: GetConfig, y: System, count: nat): (r: Event)
    requires y.pos + count <= |g.file|
  {
    DataAvailable(true, g.file[y.pos..y.pos + count],
                  if g.seekable then y.pos + count == |g.file| else count == 0)
  }

  predicate SessionCan(y: System, e: Event)
  {
    !ReportsClosed(y.c) && Enabled(y.c, e)
  }

  /** Reads may be short, but a read of at least one byte before the end of
      the file returns at least one. */
  predicate Can(g: GetConfig, y: System, t: Step)
  {
    match t
    case SessionEvent(e) =>
      && SessionCan(y, e)
      && !e.Start? && !e.DataAvailable? && !(e.PacketReceived? && e.arrival.FromPeer?)
    case ReadDone(count) =>
      && y.pos + count <= |g.file|
      && SessionCan(y, ReadEvent(g, y, count))
      && (count == 0 ==> y.c.s.src.size == y.c.s.cfg.blockSize || y.pos == |g.file|)
    case ReadFailed => SessionCan(y, DataAvailable(false, [], false))
    case KernelWrites(bytes) =>
      && ValidSession(y.c.s) && y.c.s.src.fetching
      && |bytes| <= y.c.s.cfg.blockSize - y.c.s.src.size
    case PacketArrives => y.toServer != [] && SessionCan(y, PacketReceived(FromPeer(y.toServer[0])))
    case LoseToClient(i) => i < |y.toClient|
    case LoseToServer(i) => i < |y.toServer|
    case ClientReceives(_) => y.toClient != [] && y.client.status == R.Running
    case ClientEvent(o) =>
      && !o.Received? && y.client.status == R.Running
      && (o.FromStranger? ==> !y.client.isFirst)   // the first sender becomes the peer
  }

  function Handle(y: System, e: Event): (r: System)
    requires Enabled(y.c, e)
  {
    y.(c := HandleEvent(y.c, e), toClient := y.toClient + Sends(React(y.c.s, e).acts))
  }

  /** Before the first answer the client talks to the listener, not to the session. */
  function ClientStep(g: GetConfig, y: System, o: R.Outcome): (r: System)
  {
    var client := R.Step(g.client, y.client, o);
    var n := |y.client.sent|;
    var news := if n <= |client.sent| && !(o.TimedOut? && y.client.isFirst) then client.sent[n..] else [];
    y.(client := client, toServer := y.toServer + news)
  }

  function Next(g: GetConfig, y: System, t: Step): (r: System)
    requires Can(g, y, t)
  {
    match t
    case SessionEvent(e) => Handle(y, e)
    case ReadDone(count) => Handle(y, ReadEvent(g, y, count)).(pos := y.pos + count)
    case ReadFailed => Handle(y, DataAvailable(false, [], false))
    case KernelWrites(bytes) => y.(c := y.c.(s := FillSlot(y.c.s, bytes)))
    case PacketArrives => Handle(y.(toServer := y.toServer[1..]), PacketReceived(FromPeer(y.toServer[0])))
    case LoseToClient(i) => y.(toClient := RemoveAt(y.toClient, i))
    case LoseToServer(i) => y.(toServer := RemoveAt(y.toServer, i))
    case ClientReceives(local) =>
      ClientStep(g, y.(toClient := y.toClient[1..]), R.Received(y.toClient[0], local))
    case ClientEvent(o) => ClientStep(g, y, o)
  }

  /** The request has just been accepted. */
  function Initial(g: GetConfig, ring: seq<Slot>): (r: System)
    requires ValidRing(g, ring)
  {
    Handle(System(InitialCtx(g.session, ring), 0, [], [], R.InitialReceiver(g.client)), Start(true))
  }

  predicate ValidRun(g: GetConfig, ring: seq<Slot>, run: seq<Step>)
    requires ValidRing(g, ring)
    decreases |run|, 0
  {
    run == [] || (ValidRun(g, ring, run[..|run| - 1])
                  && Can(g, Exec(g, ring, run[..|run| - 1]), run[|run| - 1]))
  }

  /** The state after a run. */
  function Exec(g: GetConfig, ring: seq<Slot>, run: seq<Step>): (r: System)
    requires ValidRing(g, ring) && ValidRun(g, ring, run)
    decreases |run|, 1
  {
    if run == [] then Initial(g, ring)
    else Next(g, Exec(g, ring, run[..|run| - 1]), run[|run| - 1])
  }

  lemma RunStep(g: GetConfig, ring: seq<Slot>, run: seq<Step>, t: Step)
    requires ValidRing(g, ring) && ValidRun(g, ring, run) && Can(g, Exec(g, ring, run), t)
    ensures ValidRun(g, ring, run + [t])
    ensures Exec(g, ring, run + [t]) == Next(g, Exec(g, ring, run), t)
  {
    assert (run + [t])[..|run + [t]| - 1] == run;
    hide Can, Next;
  }
}
