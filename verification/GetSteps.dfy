/**
 Every step of a read request keeps the invariant.
 */
module GetSteps {
  import opened BlockNumbers
  import opened RingSlots
  import opened FileBlocks
  import opened Packets
  import opened Session
  import opened SessionJobs
  import opened GoBackN
  import opened GetTransfer
  import opened GetInvariant
  import opened GetSession
  import R = Receiver

  // ------------------------------------------------------- the session

  predicate TimeoutRound(s: Session, e: Event)
  {
    e.Timeout? && !e.cancelled && !s.ctl.shouldClose && s.ctl.timerActive
  }

  /** What the event puts on the wire, as numbered messages. */
  function Transmitted(s: Session, e: Event, link: Link): (r: seq<Msg>)
  {
    if TimeoutRound(s, e) then
      if s.ctl.retransmission >= s.cfg.retries then [Abort] else WindowMsgs(link.snd)
    else if e.DataAvailable? && !e.success then [Abort]
    else if SendsBlock(s, e) then [Block(link.snd.next)]
    else []
  }

  /** The shadow after an event of the session. */
  function ShadowReact(s: Session, e: Event, h: Shadow): (r: Shadow)
  {
    var l := h.link;
    if e.PacketReceived? && e.arrival.FromPeer? && l.acks != [] then
      h.(link := if s.ctl.shouldClose then LoseAck(l, 0) else ReceiveAck(l))
    else if SendsBlock(s, e) then
      Shadow(TransmitNext(l), if s.cfg.adaptive && !s.rtt.active then l.snd.next else h.timed)
    else
      h.(link := Put(l, Transmitted(s, e, l)))
  }

  /** Fetching the next block sends nothing. */
  lemma FetchAfter(g: GetConfig, s: Session, e: Event, pos: nat, h: Shadow)
    requires ValidSession(s) && Deliverable(s, e)
    requires LinkInv(h.link) && SessionRel(g, Dispatch(s, e).s, pos, h)
    ensures SessionRel(g, React(s, e).s, pos, h)
    ensures Sends(React(s, e).acts) == Sends(Dispatch(s, e).acts)
  {
    hide Dispatch, SessionRel;
    var d := Dispatch(s, e);
    if ShouldFetch(d.s) {
      FetchKeeps(g, d.s, pos, h);
      SendsConcat(d.acts, [Submit(OpRead)]);
      assert Sends([Submit(OpRead)]) == [];
    }
  }

  /** Only the fetch at the end of an event submits a read. */
  lemma DispatchReadsNothing(s: Session, e: Event)
    requires ValidSession(s) && Deliverable(s, e)
    ensures Submit(OpRead) !in Dispatch(s, e).acts
    ensures Dispatch(s, e).s.src.fetching == (s.src.fetching && !e.DataAvailable?)
  {
    hide IsInRange, SlotOf, Wrap16, Retransmission, AckAccepted;
  }

  lemma OneReadSubmitted()
    ensures Submissions([Submit(OpRead)])[OpRead] == 1
  {
  }

  /** The completion of a read takes away the one that was outstanding. */
  lemma ReadsCompleted(c: Ctx, e: Event)
    requires Completed(e) <= c.io.outstanding && ReadsRel(c)
    ensures e.DataAvailable? ==> c.s.src.fetching
    ensures Complete(c.io, e).outstanding[OpRead] == if c.s.src.fetching && !e.DataAvailable? then 1 else 0
  {
    assert Completed(e)[OpRead] == if e.DataAvailable? then 1 else 0;
  }

  lemma ShouldFetchIdle(s: Session)
    requires ShouldFetch(s)
    ensures !s.src.fetching
  {
  }

  lemma ReadsAfter(c: Ctx, e: Event)
    requires Enabled(c, e) && ReadsRel(c)
    ensures ReadsRel(HandleEvent(c, e))
    ensures e.DataAvailable? ==> c.s.src.fetching
  {
    hide Dispatch, ShouldFetch, Submissions, Perform;
    var d, io := Dispatch(c.s, e), Complete(c.io, e);
    DispatchReadsNothing(c.s, e);
    SubmissionsOf(d.acts, OpRead);
    PerformEffect(io, React(c.s, e).acts);
    ReadsCompleted(c, e);
    if ShouldFetch(d.s) {
      SendsConcat(d.acts, [Submit(OpRead)]);
      OneReadSubmitted();
      ShouldFetchIdle(d.s);
    }
    hide Complete;
  }

  /** From the session's step to the whole system. */
  lemma HandleInv(g: GetConfig, y: System, h: Shadow, e: Event, pos: nat, h': Shadow, ms: seq<Msg>)
    requires Enabled(y.c, e) && ReadsRel(y.c)
    requires ClientRel(g, y.client, h.link.first, h.link.expected)
    requires OnWire(g, y.toClient, h.link.data) && OnWire(g, y.c.io.sent, h.link.log)
    requires AcksOnWire(y.toServer, h'.link.acks) && LinkInv(h'.link)
    requires h'.link.first == h.link.first && h'.link.expected == h.link.expected
    requires h'.link.data == h.link.data + ms && h'.link.log == h.link.log + ms
    requires SessionRel(g, Dispatch(y.c.s, e).s, pos, h')
    requires OnWire(g, Sends(Dispatch(y.c.s, e).acts), ms)
    ensures Inv(g, Handle(y, e).(pos := pos), h')
  {
    hide Dispatch, React, SessionRel, ClientRel, LinkInv, Sends, Wire, ReadsRel;
    ReadsAfter(y.c, e);
    FetchAfter(g, y.c.s, e, pos, h');
    PerformEffect(Complete(y.c.io, e), React(y.c.s, e).acts);
  }

  /** An event that carries nothing from the peer leaves the session as it is. */
  lemma QuietArrival(s: Session, e: Event)
    requires ValidSession(s) && Deliverable(s, e) && !TimeoutRound(s, e)
    requires !e.Start? && !e.DataAvailable? && !(e.PacketReceived? && e.arrival.FromPeer?)
    ensures Dispatch(s, e).s == s && Sends(Dispatch(s, e).acts) == []
  {
    assert [] + [Submit(OpRecv)] == [Submit(OpRecv)];
    assert Sends([Submit(OpRecv)]) == [];
  }

  lemma TimeoutInv(g: GetConfig, y: System, h: Shadow, e: Event)
    requires Inv(g, y, h) && Enabled(y.c, e) && TimeoutRound(y.c.s, e)
    ensures Inv(g, Handle(y, e), ShadowReact(y.c.s, e, h))
  {
    hide SessionRel, ClientRel, LinkInv, ReadsRel;
    var s, h' := y.c.s, ShadowReact(y.c.s, e, h);
    var ms := Transmitted(s, e, h.link);
    if s.ctl.retransmission >= s.cfg.retries {
      GiveUpKeeps(h.link);
      GiveUpStep(g, s, y.pos, h, h');
      SendsConcat([Submit(OpRecvCancel)], [Send(Error)]);
      assert [Submit(OpRecvCancel)] + [Send(Error)] == [Submit(OpRecvCancel), Send(Error)];
      assert Sends([Submit(OpRecvCancel)]) == [] && Sends([Send(Error)]) == [Error];
    } else {
      RetransmitWindowKeeps(h.link);
      TimeoutStep(g, s, y.pos, h, h');
    }
    HandleInv(g, y, h, e, y.pos, h', ms);
  }

  lemma QuietEvent(g: GetConfig, y: System, h: Shadow, e: Event)
    requires Inv(g, y, h) && Enabled(y.c, e)
    requires !e.Start? && !e.DataAvailable? && !(e.PacketReceived? && e.arrival.FromPeer?)
    ensures Inv(g, Handle(y, e), ShadowReact(y.c.s, e, h))
  {
    var s, h' := y.c.s, ShadowReact(y.c.s, e, h);
    if TimeoutRound(s, e) {
      TimeoutInv(g, y, h, e);
    } else {
      assert h.link.data + [] == h.link.data && h.link.log + [] == h.link.log;
      assert h' == h;
      QuietArrival(s, e);
      HandleInv(g, y, h, e, y.pos, h, []);
    }
  }

  lemma ReadHasRoom(g: GetConfig, s: Session, pos: nat, h: Shadow)
    requires SessionRel(g, s, pos, h) && s.src.fetching
    ensures CanTransmit(h.link)
  {
  }

  lemma DispatchOfRead(g: GetConfig, s: Session, pos: nat, e: Event, count: nat)
    requires ValidSession(s) && Deliverable(s, e) && e.DataAvailable? && e.success
    requires pos + count <= |g.file| && e.bytes == g.file[pos..pos + count]
    ensures var x := Extended(g, s, pos, count);
            Dispatch(s, e) == if SendsBlock(s, e) then SendNewBlock(x)
                              else Reaction(x.(src := x.src.(incomplete := true)), [])
  {
    hide SendNewBlock, FillSlot;
  }

  /** A read that completes the block. */
  lemma BlockReadInv(g: GetConfig, y: System, h: Shadow, count: nat)
    requires ValidGet(g) && Inv(g, y, h) && Can(g, y, ReadDone(count))
    requires SendsBlock(y.c.s, ReadEvent(g, y, count))
    ensures Inv(g, Next(g, y, ReadDone(count)), ShadowReact(y.c.s, ReadEvent(g, y, count), h))
  {
    hide ClientRel, LinkInv, ReadsRel, Wire, SendNewBlock, ValidGet, WindowRel, FileRel, SourceRel, RingRel, TimerRel, RttRel, ReportsClosed,
      Perform, Handle;
    var s, e, h' := y.c.s, ReadEvent(g, y, count), ShadowReact(y.c.s, ReadEvent(g, y, count), h);
    ReadsAfter(y.c, e);
    assert BlockComplete(g, s, y.pos, count);
    ReadHasRoom(g, s, y.pos, h);
    TransmitNextKeeps(h.link);
    SendStep(g, s, y.pos, h, h', count);
    SendOnWire(g, s, y.pos, h, count);
    DispatchOfRead(g, s, y.pos, e, count);
    HandleInv(g, y, h, e, y.pos + count, h', Transmitted(s, e, h.link));
  }

  /** A read that does not. */
  lemma PartReadInv(g: GetConfig, y: System, h: Shadow, count: nat)
    requires ValidGet(g) && Inv(g, y, h) && Can(g, y, ReadDone(count))
    requires !SendsBlock(y.c.s, ReadEvent(g, y, count))
    ensures Inv(g, Next(g, y, ReadDone(count)), ShadowReact(y.c.s, ReadEvent(g, y, count), h))
  {
    hide ClientRel, LinkInv, ReadsRel, Wire, SendNewBlock, ValidGet, WindowRel, FileRel, SourceRel, RingRel, TimerRel, RttRel, ReportsClosed,
      Perform, Handle;
    var s, e, h' := y.c.s, ReadEvent(g, y, count), ShadowReact(y.c.s, ReadEvent(g, y, count), h);
    ReadsAfter(y.c, e);
    ReadPartial(g, s, y.pos, h, count);
    assert h.link.data + [] == h.link.data && h.link.log + [] == h.link.log;
    assert h' == h;
    DispatchOfRead(g, s, y.pos, e, count);
    HandleInv(g, y, h, e, y.pos + count, h', []);
  }

  lemma ReadDoneInv(g: GetConfig, y: System, h: Shadow, count: nat)
    requires ValidGet(g) && Inv(g, y, h) && Can(g, y, ReadDone(count))
    ensures Inv(g, Next(g, y, ReadDone(count)), ShadowReact(y.c.s, ReadEvent(g, y, count), h))
  {
    hide Inv, ValidGet, Next, ShadowReact;
    if SendsBlock(y.c.s, ReadEvent(g, y, count)) {
      BlockReadInv(g, y, h, count);
    } else {
      PartReadInv(g, y, h, count);
    }
  }

  lemma CloseKeeps(g: GetConfig, s: Session, pos: nat, h: Shadow)
    requires SessionRel(g, s, pos, h)
    ensures SessionRel(g, SetClose(s, true), pos, h)
    ensures SessionRel(g, SetClose(s.(src := s.src.(fetching := false)), true), pos, h)
  {
    hide RingRel, Partial, IsLastBlock, BlockOf;
  }

  lemma ReadFailedInv(g: GetConfig, y: System, h: Shadow)
    requires Inv(g, y, h) && Can(g, y, ReadFailed)
    ensures Inv(g, Next(g, y, ReadFailed), ShadowReact(y.c.s, DataAvailable(false, [], false), h))
  {
    hide SessionRel, ClientRel, LinkInv, ReadsRel, ReportsClosed;
    var s, e := y.c.s, DataAvailable(false, [], false);
    var h' := ShadowReact(s, e, h);
    GiveUpKeeps(h.link);
    CloseKeeps(g, s, y.pos, h);
    GiveUpStep(g, SetClose(s.(src := s.src.(fetching := false)), true), y.pos, h, h');
    HandleInv(g, y, h, e, y.pos, h', [Abort]);
  }

  lemma SessionRelIgnoresQueues(g: GetConfig, s: Session, pos: nat, h: Shadow, h': Shadow)
    requires SessionRel(g, s, pos, h)
    requires h'.timed == h.timed && h'.link.snd == h.link.snd && h'.link.log == h.link.log
    requires h'.link.w == h.link.w && h'.link.first == h.link.first
    ensures SessionRel(g, s, pos, h')
  {
  }

  lemma {:induction false} NoSends(acts: seq<Action>)
    requires forall i :: 0 <= i < |acts| ==> !acts[i].Send?
    ensures Sends(acts) == []
  {
    if acts != [] {
      NoSends(acts[..|acts| - 1]);
    }
  }

  lemma AckSends(s: Session, block: uint16)
    ensures Sends(OnAck(s, block).acts) == []
  {
    NoSends(OnAck(s, block).acts);
  }

  /** Acknowledgements and errors are not answered. */
  lemma ArrivalSends(g: GetConfig, s: Session, pos: nat, h: Shadow, p: Packet)
    requires SessionRel(g, s, pos, h) && (p.Ack? || p.Error?)
    ensures Sends(OnArrival(s, FromPeer(p)).acts) == []
    ensures OnArrival(s, FromPeer(p)).s == if s.ctl.shouldClose then s else OnPacket(s, p).s
  {
    hide OnAck, Sends, RingRel, SourceRel, FileRel, WindowRel, TimerRel, RttRel, ValidSession;
    if p.Ack? {
      AckSends(s, p.block);
    }
    EmptySends();
    SubmitsOnly(OpRecv);
    SendsConcat(OnPacket(s, p).acts, [Submit(OpRecv)]);
  }

  lemma ArrivalInv(g: GetConfig, y: System, h: Shadow)
    requires Inv(g, y, h) && Can(g, y, PacketArrives)
    ensures Inv(g, Next(g, y, PacketArrives), ShadowReact(y.c.s, PacketReceived(FromPeer(y.toServer[0])), h))
  {
    hide SessionRel, ClientRel, LinkInv, ReadsRel, ReportsClosed, OnAck, Wire, Wrap16;
    var s, e := y.c.s, PacketReceived(FromPeer(y.toServer[0]));
    var l, h' := h.link, ShadowReact(s, e, h);
    var y' := y.(toServer := y.toServer[1..]);
    assert RemoveAt(l.acks, 0) == l.acks[1..];
    assert l.data + [] == l.data && l.log + [] == l.log;
    if s.ctl.shouldClose {
      LoseAckKeeps(l, 0);
      SessionRelIgnoresQueues(g, s, y.pos, h, h');
    } else {
      ReceiveAckKeeps(l);
      if l.acks[0].Abort? {
        CloseKeeps(g, s, y.pos, h);
        SessionRelIgnoresQueues(g, SetClose(s, true), y.pos, h, h');
      } else {
        AckStep(g, s, y.pos, h, h');
      }
    }
    ArrivalSends(g, s, y.pos, h, y.toServer[0]);
    HandleInv(g, y', h, e, y.pos, h', []);
  }

  lemma FillKeepsPartial(g: GetConfig, s: Session, pos: nat, h: Shadow, bytes: seq<byte>)
    requires SessionRel(g, s, pos, h) && s.src.fetching && |bytes| <= s.cfg.blockSize - s.src.size
    ensures SourceRel(g, s.src, s.ctl.shouldClose, FillSlot(s, bytes).ring, pos, h.link.w, h.link.snd)
  {
    hide RingRel, TimerRel, RttRel, FileRel;
    var i := SlotOf(s.win.next, s.cfg.windowSize);
    RingIndexIsSlotOf(h.link.snd.next, h.link.w);
    var d, d' := s.ring[i].data, FillSlot(s, bytes).ring[i].data;
    assert d'[..s.src.size] == d[..s.src.size];
  }

  lemma KernelWritesInv(g: GetConfig, y: System, h: Shadow, bytes: seq<byte>)
    requires ValidGet(g) && Inv(g, y, h) && Can(g, y, KernelWrites(bytes))
    ensures Inv(g, Next(g, y, KernelWrites(bytes)), h)
  {
    var s := y.c.s;
    FillKeepsRing(g, s, y.pos, h, bytes);
    FillKeepsPartial(g, s, y.pos, h, bytes);
    hide RingRel, LinkInv, ClientRel, OnWire, AcksOnWire, ValidGet, FileRel, WindowRel, TimerRel, Wrap16;
  }
}
