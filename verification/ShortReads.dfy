/**
 Blocks that are read in pieces: when a read leads to a block, and when a
 session that is reading will never send another one.
 */
module ShortReads {
  import opened BlockNumbers
  import opened RingSlots
  import opened FileBlocks
  import opened Packets
  import opened Session
  import opened SessionJobs
  import opened GoBackN
  import opened GetTransfer
  import opened GetInvariant
  import opened GetSession
  import opened GetSteps
  import opened GetTheorems
  import opened GetResults
  import R = Receiver

  // ------------------------------------------------------ what a read sends

  /** The bytes of a read go to the ring only. */
  lemma FillChangesRing(s: Session, bytes: seq<byte>)
    requires ValidSession(s) && |bytes| <= s.cfg.blockSize - s.src.size
    ensures var s' := FillSlot(s, bytes); ValidSession(s') && s' == s.(ring := s'.ring)
  {
    hide Wrap16, SlotOf;
  }

  lemma NewBlockSent(s: Session)
    requires ValidSession(s)
    ensures var r := SendNewBlock(s);
            && r.s.win.next == Wrap16(s.win.next + 1)
            && |Sends(r.acts)| == 1 && Sends(r.acts)[0].Data? && Sends(r.acts)[0].block == s.win.next
  {
    hide Wrap16, SlotOf;
    var r := SendNewBlock(s);
    var tail := r.acts[1..];
    assert r.acts == [r.acts[0]] + tail;
    SendsConcat([r.acts[0]], tail);
    assert Sends([r.acts[0]]) == [r.acts[0].packet];
    assert Sends(tail) == [];
  }

  lemma DispatchOfGoodRead(s: Session, e: Event)
    requires ValidSession(s) && Deliverable(s, e) && e.DataAvailable? && e.success
    ensures var d := Dispatch(s, e);
            && d.s.win.next == (if SendsBlock(s, e) then Wrap16(s.win.next + 1) else s.win.next)
            && (if SendsBlock(s, e)
                then |Sends(d.acts)| == 1 && Sends(d.acts)[0].Data? && Sends(d.acts)[0].block == s.win.next
                else Sends(d.acts) == [])
  {
    hide Wrap16, SlotOf, FillSlot, SendNewBlock, Sends;
    var s0 := s.(src := s.src.(fetching := false));
    FillChangesRing(s0, e.bytes);
    if SendsBlock(s, e) {
      var s1 := FillSlot(s0, e.bytes);
      NewBlockSent(s1.(src := s1.src.(size := s.src.size + |e.bytes|)));
    } else {
      EmptySends();
    }
  }

  /** What the session sends when a read has ended well. */
  lemma ReadSends(s: Session, e: Event)
    requires ValidSession(s) && Deliverable(s, e) && e.DataAvailable? && e.success
    ensures var sent := Sends(React(s, e).acts);
            if SendsBlock(s, e) then |sent| == 1 && sent[0].Data? && sent[0].block == s.win.next else sent == []
    ensures React(s, e).s.win.next == if SendsBlock(s, e) then Wrap16(s.win.next + 1) else s.win.next
  {
    hide Wrap16, IsInRange, SlotOf, FillSlot;
    var d := Dispatch(s, e);
    DispatchOfGoodRead(s, e);
    hide Dispatch, SendsBlock;
    SendsConcat(d.acts, [Submit(OpRead)]);
    assert Sends([Submit(OpRead)]) == [];
  }

  /** In every run a read that ends well leads to exactly one packet, the next
      block, or to none; it leads to the block if and only if it alone has the
      size of a block or, on a seekable file, it reached the end of the file,
      on a pipe, it returned nothing. */
  lemma ShortReadSendsIff(g: GetConfig, ring: seq<Slot>, run: seq<Step>, count: nat)
    requires ValidGet(g) && ValidRing(g, ring) && ValidRun(g, ring, run)
    requires Can(g, Exec(g, ring, run), ReadDone(count))
    ensures var y := Exec(g, ring, run);
            var sent := Sends(React(y.c.s, ReadEvent(g, y, count)).acts);
            && (sent != [] <==> count == g.session.blockSize
                                || (if g.seekable then y.pos + count == |g.file| else count == 0))
            && (sent != [] ==> |sent| == 1 && sent[0].Data? && sent[0].block == y.c.s.win.next)
  {
    RunInv(g, ring, run);
    var y := Exec(g, ring, run);
    assert y.c.s.cfg == g.session;
    hide Inv, Exec, ValidRun, ValidGet, React, Sends;
    ReadSends(y.c.s, ReadEvent(g, y, count));
  }

  // -------------------------------------------------------- doomed sessions

  /** Some bytes of the block being read are in its slot, and the block ends
      before the end of a seekable file. */
  predicate Doomed(g: GetConfig, y: System)
  {
    && g.seekable && y.c.s.src.fetching
    && 0 < y.c.s.src.size <= y.pos
    && y.pos - y.c.s.src.size + g.session.blockSize < |g.file|
  }

  /** A session that will not send another block: it is doomed, or it is
      closing and no longer reading. */
  predicate Stuck(g: GetConfig, y: System)
  {
    Doomed(g, y) || (y.c.s.ctl.shouldClose && !y.c.s.src.fetching)
  }

  /** Nothing but the end of its read touches a session's read or its next
      block, and a closing session keeps closing. */
  lemma FetchingStays(s: Session, e: Event)
    requires ValidSession(s) && Deliverable(s, e) && !e.DataAvailable? && !e.Start?
    requires s.src.fetching || s.ctl.shouldClose
    ensures React(s, e).s.src == s.src && React(s, e).s.cfg == s.cfg
    ensures React(s, e).s.win.next == s.win.next
    ensures s.ctl.shouldClose ==> React(s, e).s.ctl.shouldClose
  {
    hide IsInRange, Wrap16, Retransmission, AckAccepted, ValidSession;
  }

  /** A read that does not complete its block leaves a live session reading
      the rest, a closing one idle. */
  lemma PartialRead(g: GetConfig, y: System, h: Shadow, count: nat)
    requires ValidGet(g) && Inv(g, y, h) && Can(g, y, ReadDone(count))
    requires !SendsBlock(y.c.s, ReadEvent(g, y, count))
    ensures var y' := Next(g, y, ReadDone(count));
            && y.c.s.src.fetching && y.c.s.src.size <= y.pos
            && y'.c.s.src.lastPacket == -1 && y'.c.s.src.size == y.c.s.src.size + count
            && y'.c.s.src.fetching == !y.c.s.ctl.shouldClose
            && y'.pos == y.pos + count && y'.c.s.ctl.shouldClose == y.c.s.ctl.shouldClose
            && y'.c.s.win == y.c.s.win && y'.c.s.cfg == y.c.s.cfg
  {
    hide ClientRel, RingRel, RttRel, TimerRel, Partial, RingSafe, IsInRange, Wrap16, ReadsRel, Perform, Sends,
      AcksInv, DataInv, LogInv, Wire, AckWire, SlotOf;
    ReadsAfter(y.c, ReadEvent(g, y, count));
    FetchTest(h.link.snd.begin, h.link.snd.next, g.session.windowSize);
  }

  lemma ReadIsFetching(g: GetConfig, y: System, h: Shadow, count: nat)
    requires Inv(g, y, h) && Can(g, y, ReadDone(count))
    ensures y.c.s.src.fetching
  {
    hide ReadsRel, SessionRel, ClientRel, LinkInv, Enabled, Handle;
    ReadsAfter(y.c, ReadEvent(g, y, count));
  }

  lemma StuckRead(g: GetConfig, y: System, h: Shadow, count: nat)
    requires ValidGet(g) && Inv(g, y, h) && Can(g, y, ReadDone(count)) && Stuck(g, y)
    ensures Stuck(g, Next(g, y, ReadDone(count)))
    ensures Next(g, y, ReadDone(count)).c.s.win.next == y.c.s.win.next
  {
    assert y.c.s.cfg == g.session;
    hide Inv, ValidGet, Next, React;
    ReadIsFetching(g, y, h, count);
    assert !SendsBlock(y.c.s, ReadEvent(g, y, count));
    PartialRead(g, y, h, count);
  }

  lemma StuckStep(g: GetConfig, y: System, h: Shadow, t: Step)
    requires ValidGet(g) && Inv(g, y, h) && Can(g, y, t) && Stuck(g, y)
    ensures Stuck(g, Next(g, y, t))
    ensures Next(g, y, t).c.s.win.next == y.c.s.win.next
  {
    hide Inv, ValidGet;
    match t
    case ReadDone(count) =>
      StuckRead(g, y, h, count);
    case ReadFailed =>
      hide Perform, Sends, IsInRange, Wrap16, FillSlot;
    case KernelWrites(bytes) =>
      hide SlotOf;
    case SessionEvent(e) =>
      hide React, Perform, Sends, ReportsClosed;
      FetchingStays(y.c.s, e);
    case PacketArrives =>
      hide React, Perform, Sends, ReportsClosed;
      FetchingStays(y.c.s, PacketReceived(FromPeer(y.toServer[0])));
    case _ =>
      hide R.Step;
  }

  /** A stuck session never sends another block, in any continuation. */
  lemma {:induction false} StuckForever(g: GetConfig, ring: seq<Slot>, run: seq<Step>, more: seq<Step>)
    requires ValidGet(g) && ValidRing(g, ring) && ValidRun(g, ring, run) && ValidRun(g, ring, run + more)
    requires Stuck(g, Exec(g, ring, run))
    ensures Stuck(g, Exec(g, ring, run + more))
    ensures Exec(g, ring, run + more).c.s.win.next == Exec(g, ring, run).c.s.win.next
    decreases |more|
  {
    hide ValidGet, ValidRing, Stuck, Can, Next;
    if more == [] {
      assert run + more == run;
    } else {
      var before := run + more[..|more| - 1];
      assert (run + more)[..|run + more| - 1] == before;
      StuckForever(g, ring, run, more[..|more| - 1]);
      RunInv(g, ring, before);
      hide Inv;
      StuckStep(g, Exec(g, ring, before), ShadowOf(g, ring, before), more[|more| - 1]);
    }
  }

  // ----------------------------------------------------- sessions that send

  /** As much as one read can return. */
  function Rest(g: GetConfig, y: System): (m: nat)
    requires y.c.s.src.size <= g.session.blockSize && y.pos <= |g.file|
  {
    Min(g.session.blockSize - y.c.s.src.size, |g.file| - y.pos)
  }

  lemma ReadMoves(g: GetConfig, y: System, count: nat)
    requires Can(g, y, ReadDone(count)) && SendsBlock(y.c.s, ReadEvent(g, y, count))
    ensures Next(g, y, ReadDone(count)).c.s.win.next != y.c.s.win.next
  {
    hide React, SendsBlock, Perform, Sends;
    ReadSends(y.c.s, ReadEvent(g, y, count));
  }

  lemma ReadingState(g: GetConfig, y: System, h: Shadow)
    requires ValidGet(g) && Inv(g, y, h) && y.c.s.src.fetching
    ensures y.c.s.cfg == g.session && y.c.s.src.size <= g.session.blockSize
    ensures y.c.s.src.size <= y.pos <= |g.file| && 1 <= g.session.blockSize
  {
    hide ClientRel, RingRel, RttRel, TimerRel, RingSafe, LinkInv, Wire, AckWire, FileRel, LastBlock;
  }

  predicate Reading(y: System)
  {
    y.c.s.src.fetching && !y.c.s.ctl.shouldClose
  }

  /** The most one read can return leads to the block, unless the session is
      doomed or the file is a pipe, where a read of nothing must follow. */
  lemma FullestRead(g: GetConfig, y: System, h: Shadow)
    requires ValidGet(g) && Inv(g, y, h) && Reading(y) && !Doomed(g, y)
    ensures y.c.s.src.size <= g.session.blockSize && y.pos <= |g.file|
    ensures Can(g, y, ReadDone(Rest(g, y)))
    ensures SendsBlock(y.c.s, ReadEvent(g, y, Rest(g, y))) || !g.seekable
  {
    ReadingState(g, y, h);
    hide Inv, ValidGet, Can;
    ReadCanComplete(g, y, h, Rest(g, y));
  }

  /** On a pipe, once no more bytes fit or come, a read of nothing sends the block. */
  lemma EmptyRead(g: GetConfig, y: System, h: Shadow)
    requires ValidGet(g) && Inv(g, y, h) && Reading(y) && !g.seekable
    requires y.c.s.src.size == g.session.blockSize || y.pos == |g.file|
    ensures Can(g, y, ReadDone(0)) && SendsBlock(y.c.s, ReadEvent(g, y, 0))
  {
    ReadingState(g, y, h);
    hide Inv, ValidGet, Can;
    ReadCanComplete(g, y, h, 0);
  }

  /** The run goes on with `more`, and a block is sent on the way. */
  predicate Progresses(g: GetConfig, ring: seq<Slot>, run: seq<Step>, more: seq<Step>)
    requires ValidGet(g) && ValidRing(g, ring) && ValidRun(g, ring, run)
  {
    ValidRun(g, ring, run + more) && Exec(g, ring, run + more).c.s.win.next != Exec(g, ring, run).c.s.win.next
  }

  lemma NextBlockComes(g: GetConfig, ring: seq<Slot>, run: seq<Step>) returns (more: seq<Step>)
    requires ValidGet(g) && ValidRing(g, ring) && ValidRun(g, ring, run)
    requires Reading(Exec(g, ring, run)) && !Doomed(g, Exec(g, ring, run))
    ensures Progresses(g, ring, run, more)
  {
    hide ValidGet, ValidRing, Inv, Next, Can, Exec, ValidRun, ShadowOf, Doomed, SendsBlock;
    RunInv(g, ring, run);
    var y, h := Exec(g, ring, run), ShadowOf(g, ring, run);
    FullestRead(g, y, h);
    var m := Rest(g, y);
    RunStep(g, ring, run, ReadDone(m));
    more := [ReadDone(m)];
    if SendsBlock(y.c.s, ReadEvent(g, y, m)) {
      ReadMoves(g, y, m);
    } else {
      RunInv(g, ring, run + more);
      PartialRead(g, y, h, m);
      StepKeepsConfig(g, y, h, ReadDone(m));
      var y1 := Exec(g, ring, run + more);
      EmptyRead(g, y1, ShadowOf(g, ring, run + more));
      RunStep(g, ring, run + more, ReadDone(0));
      ReadMoves(g, y1, 0);
      assert run + more + [ReadDone(0)] == run + (more + [ReadDone(0)]);
      more := more + [ReadDone(0)];
    }
  }

  /** A live session that is reading can still send its next block, in some
      continuation of the run, if and only if it is not doomed. */
  lemma NextBlockComesIff(g: GetConfig, ring: seq<Slot>, run: seq<Step>)
    requires ValidGet(g) && ValidRing(g, ring) && ValidRun(g, ring, run)
    requires Reading(Exec(g, ring, run))
    ensures (exists more :: Progresses(g, ring, run, more)) <==> !Doomed(g, Exec(g, ring, run))
  {
    hide ValidGet, ValidRing, Exec, ValidRun, Doomed;
    if Doomed(g, Exec(g, ring, run)) {
      forall more | ValidRun(g, ring, run + more) ensures !Progresses(g, ring, run, more) {
        StuckForever(g, ring, run, more);
      }
    } else {
      var more := NextBlockComes(g, ring, run);
    }
  }

  /** A read of a live session that does not lead to a block dooms it if and
      only if the file is seekable and the block ends before the file does. */
  lemma ShortReadDoomsIff(g: GetConfig, ring: seq<Slot>, run: seq<Step>, count: nat)
    requires ValidGet(g) && ValidRing(g, ring) && ValidRun(g, ring, run)
    requires Can(g, Exec(g, ring, run), ReadDone(count)) && !Exec(g, ring, run).c.s.ctl.shouldClose
    requires !SendsBlock(Exec(g, ring, run).c.s, ReadEvent(g, Exec(g, ring, run), count))
    ensures var y := Exec(g, ring, run);
            Doomed(g, Next(g, y, ReadDone(count))) <==>
              g.seekable && y.pos - y.c.s.src.size + g.session.blockSize < |g.file|
  {
    RunInv(g, ring, run);
    var y, h := Exec(g, ring, run), ShadowOf(g, ring, run);
    hide Inv, Exec, ShadowOf, ValidGet, ValidRun, Next;
    PartialRead(g, y, h, count);
    ReadingState(g, y, h);
  }

  // -------------------------------------------------- a run that ends doomed

  /** One read of one byte, of any seekable file of more than 512 bytes
      requested without options, dooms the session. */
  lemma StallHappens(g: GetConfig, ring: seq<Slot>)
    requires ValidGet(g) && ValidRing(g, ring) && !g.session.optionsRequired
    requires g.seekable && |g.file| > 512
    ensures ValidRun(g, ring, [ReadDone(1)])
    ensures Doomed(g, Exec(g, ring, [ReadDone(1)])) && Reading(Exec(g, ring, [ReadDone(1)]))
  {
    assert g.session.blockSize == 512;
    hide ValidGet, ValidRing, Inv, Next, Can, Exec, ValidRun, ShadowOf, ShadowNext;
    FirstRead(g, ring);
    RunInv(g, ring, []);
    var y, h := Exec(g, ring, []), ShadowOf(g, ring, []);
    ReadCanComplete(g, y, h, 1);
    RunStep(g, ring, [], ReadDone(1));
    assert [] + [ReadDone(1)] == [ReadDone(1)];
    PartialRead(g, y, h, 1);
  }
}
