/**
 What holds in every run of a read request.
 */
module GetTheorems {
  import opened BlockNumbers
  import opened RingSlots
  import opened FileBlocks
  import opened Packets
  import opened Session
  import opened SessionJobs
  import opened GoBackN
  import opened GetTransfer
  import opened GetInvariant
  import opened GetSession
  import opened GetSteps
  import opened GetClient
  import R = Receiver

  function InitialShadow(g: GetConfig): (h: Shadow)
  {
    var w: nat := g.session.windowSize;
    if g.session.optionsRequired
    then Shadow(Link(0, w, Sender(0, 1), [Block(0)], [], 0, [Block(0)]), 0)
    else Shadow(Link(1, w, Sender(1, 1), [], [], 1, []), 0)
  }

  function ShadowNext(g: GetConfig, y: System, h: Shadow, t: Step): (h': Shadow)
    requires Can(g, y, t)
  {
    match t
    case SessionEvent(e) => ShadowReact(y.c.s, e, h)
    case ReadDone(count) => ShadowReact(y.c.s, ReadEvent(g, y, count), h)
    case ReadFailed => ShadowReact(y.c.s, DataAvailable(false, [], false), h)
    case KernelWrites(_) => h
    case PacketArrives => ShadowReact(y.c.s, PacketReceived(FromPeer(y.toServer[0])), h)
    case LoseToClient(i) => if i < |h.link.data| then h.(link := LoseData(h.link, i)) else h
    case LoseToServer(i) => if i < |h.link.acks| then h.(link := LoseAck(h.link, i)) else h
    case ClientReceives(local) =>
      if h.link.data == [] then h
      else h.(link := ShadowReceive(h.link, y.client, R.Step(g.client, y.client, R.Received(y.toClient[0], local))))
    case ClientEvent(o) => h.(link := ShadowClientEvent(h.link, y.client, R.Step(g.client, y.client, o)))
  }

  /** The unbounded numbers that go with a run. */
  function ShadowOf(g: GetConfig, ring: seq<Slot>, run: seq<Step>): (h: Shadow)
    requires ValidGet(g) && ValidRing(g, ring) && ValidRun(g, ring, run)
  {
    if run == [] then InitialShadow(g)
    else
      var before := run[..|run| - 1];
      ShadowNext(g, Exec(g, ring, before), ShadowOf(g, ring, before), run[|run| - 1])
  }

  lemma StartSends()
    ensures Sends([Submit(OpTimeout), Send(Oack), Submit(OpRecv)]) == [Oack]
    ensures Sends([Submit(OpRecv)]) == []
  {
    SendsConcat([Submit(OpTimeout)], [Send(Oack)]);
    SendsConcat([Submit(OpTimeout)] + [Send(Oack)], [Submit(OpRecv)]);
    assert [Submit(OpTimeout)] + [Send(Oack)] + [Submit(OpRecv)] == [Submit(OpTimeout), Send(Oack), Submit(OpRecv)];
  }

  lemma StartWithOptions(g: GetConfig, ring: seq<Slot>)
    requires ValidGet(g) && ValidRing(g, ring) && g.session.optionsRequired
    ensures SessionRel(g, OnStart(InitialSession(g.session, ring), true).s, 0, InitialShadow(g))
  {
    hide RingSafe, LastBlock, RingIndex;
    assert multiset([Block(0)])[Block(0)] == 1;
  }

  lemma StartWithoutOptions(g: GetConfig, ring: seq<Slot>)
    requires ValidGet(g) && ValidRing(g, ring) && !g.session.optionsRequired
    ensures SessionRel(g, OnStart(InitialSession(g.session, ring), true).s, 0, InitialShadow(g))
  {
    hide RingSafe, LastBlock;
  }

  lemma StartOnWire(g: GetConfig, ring: seq<Slot>)
    requires ValidGet(g)
    ensures OnWire(g, Sends(OnStart(InitialSession(g.session, ring), true).acts), InitialShadow(g).link.data)
  {
    StartSends();
    hide Sends, ValidConfig, RingSafe;
  }

  lemma InitialClient(g: GetConfig)
    ensures var l := InitialShadow(g).link;
            ClientRel(g, R.InitialReceiver(g.client), l.first, l.expected)
  {
  }

  lemma InitialLink(g: GetConfig)
    requires ValidGet(g)
    ensures var l := InitialShadow(g).link;
            LinkInv(l) && l.log == l.data && l.acks == []
  {
    hide RingSafe, LastBlock;
  }

  lemma InitialEnabled(g: GetConfig, ring: seq<Slot>)
    requires ValidGet(g) && ValidRing(g, ring)
    ensures Enabled(InitialCtx(g.session, ring), Start(true)) && ReadsRel(InitialCtx(g.session, ring))
    ensures InitialCtx(g.session, ring).s == InitialSession(g.session, ring)
  {
    hide RingSafe, LastBlock;
  }

  lemma InitialInv(g: GetConfig, ring: seq<Slot>)
    requires ValidGet(g) && ValidRing(g, ring)
    ensures Inv(g, Initial(g, ring), InitialShadow(g))
  {
    hide SessionRel, ClientRel, OnStart, ValidGet, LinkInv, Sends, Wire, React, Perform;
    var h' := InitialShadow(g);
    var y := System(InitialCtx(g.session, ring), 0, [], [], R.InitialReceiver(g.client));
    var h := Shadow(h'.link.(data := [], log := []), 0);
    InitialClient(g);
    InitialLink(g);
    InitialEnabled(g, ring);
    if g.session.optionsRequired {
      StartWithOptions(g, ring);
    } else {
      StartWithoutOptions(g, ring);
    }
    StartOnWire(g, ring);
    HandleInv(g, y, h, Start(true), 0, h', h'.link.data);
  }

  /** The client's step concerns the queues and the expected number only. */
  lemma ShadowReceiveQueues(l: Link, before: R.Receiver, after: R.Receiver)
    requires l.data != []
    ensures var l' := ShadowReceive(l, before, after);
            l'.data == l.data[1..] && l'.log == l.log && l'.snd == l.snd && l'.w == l.w && l'.first == l.first
  {
    assert RemoveAt(l.data, 0) == l.data[1..];
  }

  lemma ClientReceivesInv(g: GetConfig, y: System, h: Shadow, local: R.Write)
    requires ValidGet(g) && Inv(g, y, h) && Can(g, y, ClientReceives(local))
    ensures Inv(g, Next(g, y, ClientReceives(local)), ShadowNext(g, y, h, ClientReceives(local)))
  {
    hide ClientRel, LinkInv, ValidGet, ReadsRel, Wire, AckWire, R.Step, ShadowReceive;
    var h' := ShadowNext(g, y, h, ClientReceives(local));
    var client := R.Step(g.client, y.client, R.Received(y.toClient[0], local));
    ReceiveStep(g, y.c.s, y.c.s.ctl.shouldClose, h.link, y.client, y.toClient[0], local);
    ShadowReceiveKeeps(h.link, y.client, client);
    ShadowReceiveQueues(h.link, y.client, client);
    SessionRelIgnoresQueues(g, y.c.s, y.pos, h, h');
    hide SessionRel;
  }

  lemma ClientEventInv(g: GetConfig, y: System, h: Shadow, o: R.Outcome)
    requires Inv(g, y, h) && Can(g, y, ClientEvent(o))
    ensures Inv(g, Next(g, y, ClientEvent(o)), ShadowNext(g, y, h, ClientEvent(o)))
  {
    hide LinkInv, ReadsRel, Wire;
    var h' := ShadowNext(g, y, h, ClientEvent(o));
    if 1 <= h.link.expected {
      RepeatAckKeeps(h.link);
    }
    SessionRelIgnoresQueues(g, y.c.s, y.pos, h, h');
    hide SessionRel;
  }

  lemma StepInv(g: GetConfig, y: System, h: Shadow, t: Step)
    requires ValidGet(g) && Inv(g, y, h) && Can(g, y, t)
    ensures Inv(g, Next(g, y, t), ShadowNext(g, y, h, t))
  {
    hide SessionRel, ClientRel, LinkInv, ValidGet, ReadsRel, Handle, Wire, AckWire, R.Step, ShadowReceive, ShadowReact;
    match t
    case SessionEvent(e) => QuietEvent(g, y, h, e);
    case ReadDone(count) => ReadDoneInv(g, y, h, count);
    case ReadFailed => ReadFailedInv(g, y, h);
    case KernelWrites(bytes) => KernelWritesInv(g, y, h, bytes);
    case PacketArrives => ArrivalInv(g, y, h);
    case LoseToClient(i) =>
      LoseDataKeeps(h.link, i);
      SessionRelIgnoresQueues(g, y.c.s, y.pos, h, ShadowNext(g, y, h, t));
    case LoseToServer(i) =>
      LoseAckKeeps(h.link, i);
      SessionRelIgnoresQueues(g, y.c.s, y.pos, h, ShadowNext(g, y, h, t));
    case ClientReceives(local) => ClientReceivesInv(g, y, h, local);
    case ClientEvent(o) => ClientEventInv(g, y, h, o);
  }

  lemma {:induction false} RunInv(g: GetConfig, ring: seq<Slot>, run: seq<Step>)
    requires ValidGet(g) && ValidRing(g, ring) && ValidRun(g, ring, run)
    ensures Inv(g, Exec(g, ring, run), ShadowOf(g, ring, run))
  {
    hide Inv, Next, Can, ValidGet, ShadowNext, Initial;
    if run == [] {
      InitialInv(g, ring);
    } else {
      var before := run[..|run| - 1];
      RunInv(g, ring, before);
      StepInv(g, Exec(g, ring, before), ShadowOf(g, ring, before), run[|run| - 1]);
    }
  }
}
