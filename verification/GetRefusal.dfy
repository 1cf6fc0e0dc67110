/**
 Read requests whose client does not accept the answer of the server: whatever
 happens, they output nothing.
 */
module GetRefusal {
  import opened BlockNumbers
  import opened RingSlots
  import opened FileBlocks
  import opened Packets
  import opened Session
  import opened SessionJobs
  import opened GoBackN
  import opened GetTransfer
  import opened GetInvariant
  import opened GetTheorems
  import R = Receiver

  /** The client has not taken anything. */
  predicate Refusing(r: R.Receiver)
  {
    r.out == [] && (r.status == R.Failed || (r.status == R.Running && r.isFirst))
  }

  lemma StartsRefusing(g: GetConfig, ring: seq<Slot>)
    requires ValidRing(g, ring)
    ensures Refusing(Initial(g, ring).client)
  {
    hide React, HandleEvent, Sends;
  }

  /** Without options the window is one block, and the invariant of all
      transfers applies: the first packet is a block. */
  lemma FirstPacket(g: GetConfig, y: System, h: Shadow)
    requires Inv(g, y, h) && y.client.status == R.Running && y.client.isFirst && y.toClient != []
    requires !g.session.optionsRequired
    ensures y.toClient[0].Data? || y.toClient[0].Error?
  {
    hide FileRel, SourceRel, RingRel, TimerRel, RttRel, BlockOf, Wrap16;
  }

  lemma ListRefused(g: GetConfig, y: System, h: Shadow, t: Step)
    requires Inv(g, y, h) && Can(g, y, t) && Refusing(y.client)
    requires !ClientAccepts(g) && !g.session.optionsRequired
    ensures Refusing(Next(g, y, t).client)
  {
    hide Inv, HandleEvent, React, Sends, Enabled, FillSlot;
    if t.ClientReceives? {
      FirstPacket(g, y, h);
    }
  }

  predicate OacksAndErrors(ps: seq<Packet>)
  {
    forall p :: p in ps ==> p.Oack? || p.Error?
  }

  predicate Errors(ps: seq<Packet>)
  {
    forall p :: p in ps ==> p.Error?
  }

  /** With options the OACK is refused, so that it stays unacknowledged. */
  predicate Unanswered(g: GetConfig, y: System)
  {
    && y.c.s.cfg == g.session && g.session.request == Read && OackPending(y.c.s)
    && OpRead !in y.c.io.outstanding
    && OacksAndErrors(y.toClient) && Errors(y.toServer)
    && Refusing(y.client)
  }

  lemma PendingDispatch(s: Session, e: Event)
    requires ValidSession(s) && Deliverable(s, e) && OackPending(s) && s.cfg.request == Read
    requires !e.DataAvailable? && (e.PacketReceived? && e.arrival.FromPeer? ==> e.arrival.packet.Error?)
    ensures var d := Dispatch(s, e);
            && d.s.cfg == s.cfg && OackPending(d.s) && Submit(OpRead) !in d.acts
            && forall p :: Send(p) in d.acts ==> p.Oack? || p.Error?
  {
    hide ValidSession;
  }

  lemma PendingEvent(c: Ctx, e: Event)
    requires Enabled(c, e) && OackPending(c.s) && c.s.cfg.request == Read && OpRead !in c.io.outstanding
    requires !e.DataAvailable? && (e.PacketReceived? && e.arrival.FromPeer? ==> e.arrival.packet.Error?)
    ensures var c' := HandleEvent(c, e);
            c'.s.cfg == c.s.cfg && OackPending(c'.s) && OpRead !in c'.io.outstanding
    ensures OacksAndErrors(Sends(React(c.s, e).acts))
  {
    hide Dispatch, Perform, Sends, Submissions, ValidSession;
    PendingDispatch(c.s, e);
    var acts := React(c.s, e).acts;
    PerformEffect(Complete(c.io, e), acts);
    SubmissionsOf(acts, OpRead);
    forall p | p in Sends(acts) ensures p.Oack? || p.Error? {
      SentAreSends(acts, p);
    }
  }

  lemma UnansweredHandle(g: GetConfig, y: System, e: Event)
    requires Unanswered(g, y) && Enabled(y.c, e)
    requires !e.DataAvailable? && (e.PacketReceived? && e.arrival.FromPeer? ==> e.arrival.packet.Error?)
    ensures Unanswered(g, Handle(y, e))
  {
    hide HandleEvent, React, Sends, Enabled, OackPending;
    PendingEvent(y.c, e);
  }

  lemma FillKeepsControl(s: Session, bytes: seq<byte>)
    requires ValidSession(s) && |bytes| <= s.cfg.blockSize - s.src.size
    ensures FillSlot(s, bytes).cfg == s.cfg && FillSlot(s, bytes).ctl == s.ctl
  {
    hide SlotOf;
  }

  lemma UnansweredStep(g: GetConfig, y: System, t: Step)
    requires Unanswered(g, y) && Can(g, y, t) && !ClientAccepts(g) && g.session.optionsRequired
    ensures Unanswered(g, Next(g, y, t))
  {
    hide Handle, React, Sends, FillSlot, HandleEvent;
    match t
    case SessionEvent(e) => UnansweredHandle(g, y, e);
    case PacketArrives => UnansweredHandle(g, y.(toServer := y.toServer[1..]), PacketReceived(FromPeer(y.toServer[0])));
    case KernelWrites(bytes) => FillKeepsControl(y.c.s, bytes);
    case _ =>
  }

  lemma StartEnabled(g: GetConfig, ring: seq<Slot>)
    requires ValidRing(g, ring)
    ensures Enabled(InitialCtx(g.session, ring), Start(true))
  {
  }

  lemma StartsUnanswered(g: GetConfig, ring: seq<Slot>)
    requires Agreed(g) && ValidRing(g, ring) && g.session.optionsRequired
    ensures Unanswered(g, Initial(g, ring))
  {
    hide React, HandleEvent, Sends, ValidSession;
    StartsRefusing(g, ring);
    StartEnabled(g, ring);
    PendingEvent(InitialCtx(g.session, ring), Start(true));
  }

  lemma {:induction false} UnansweredRun(g: GetConfig, ring: seq<Slot>, run: seq<Step>)
    requires Agreed(g) && ValidRing(g, ring) && ValidRun(g, ring, run)
    requires !ClientAccepts(g) && g.session.optionsRequired
    ensures Unanswered(g, Exec(g, ring, run))
  {
    hide Agreed, ValidRing, ClientAccepts, Unanswered, Can, Next, Initial;
    if run == [] {
      StartsUnanswered(g, ring);
    } else {
      var before := run[..|run| - 1];
      UnansweredRun(g, ring, before);
      UnansweredStep(g, Exec(g, ring, before), run[|run| - 1]);
    }
  }

  lemma WindowOfOneFits(g: GetConfig)
    requires Agreed(g) && !g.session.optionsRequired
    ensures ValidGet(g)
  {
    hide LastBlock;
  }

  lemma {:induction false} ListRefusedRun(g: GetConfig, ring: seq<Slot>, run: seq<Step>)
    requires ValidGet(g) && ValidRing(g, ring) && ValidRun(g, ring, run)
    requires !ClientAccepts(g) && !g.session.optionsRequired
    ensures Refusing(Exec(g, ring, run).client)
  {
    hide ValidGet, ValidRing, ClientAccepts, Refusing, Inv, Can, Next, Initial;
    if run == [] {
      StartsRefusing(g, ring);
    } else {
      var before := run[..|run| - 1];
      ListRefusedRun(g, ring, before);
      RunInv(g, ring, before);
      ListRefused(g, Exec(g, ring, before), ShadowOf(g, ring, before), run[|run| - 1]);
    }
  }

  /** A client that does not accept the answer outputs nothing, in any run. */
  lemma RefusingRun(g: GetConfig, ring: seq<Slot>, run: seq<Step>)
    requires Agreed(g) && ValidRing(g, ring) && ValidRun(g, ring, run) && !ClientAccepts(g)
    ensures Refusing(Exec(g, ring, run).client)
  {
    hide Agreed, ValidRing, ClientAccepts, ValidRun, Exec, Refusing, OackPending;
    if g.session.optionsRequired {
      UnansweredRun(g, ring, run);
    } else {
      WindowOfOneFits(g);
      ListRefusedRun(g, ring, run);
    }
  }
}
