/**
 The guarantees of a read request, for every run.
 */
module GetResults {
  import opened BlockNumbers
  import opened RingSlots
  import opened FileBlocks
  import opened Packets
  import opened Session
  import opened SessionJobs
  import opened GoBackN
  import opened GetTransfer
  import opened GetInvariant
  import opened GetSession
  import opened GetSteps
  import opened GetTheorems
  import R = Receiver

  /** The client's output is always a prefix of the file, and it is the file
      when `receive_file` returns true. */
  lemma GetSafety(g: GetConfig, ring: seq<Slot>, run: seq<Step>)
    requires ValidGet(g) && ValidRing(g, ring) && ValidRun(g, ring, run)
    ensures Exec(g, ring, run).client.out <= g.file
    ensures Exec(g, ring, run).client.status == R.Succeeded ==> Exec(g, ring, run).client.out == g.file
  {
    RunInv(g, ring, run);
  }

  lemma ShadowNextSends(g: GetConfig, y: System, h: Shadow, t: Step)
    requires ValidGet(g) && Inv(g, y, h) && Can(g, y, t)
    ensures SenderStep(h.link.snd, ShadowNext(g, y, h, t).link.snd, g.session.windowSize)
    ensures h.link.snd.begin <= h.link.snd.next <= h.link.snd.begin + g.session.windowSize
    ensures 1 <= h.link.snd.begin ==> y.c.s.win == Window(Wrap16(h.link.snd.begin), Wrap16(h.link.snd.next))
  {
    hide ClientRel, RingRel, FileRel, Wire, AckWire, Wrap16, RttRel, RingSafe, R.Step;
    var snd := h.link.snd;
    match t
    case ReadDone(count) =>
      ReadsAfter(y.c, ReadEvent(g, y, count));
      assert HasRoom(snd, h.link.w);
    case PacketArrives =>
      var m := h.link.acks[0];
      if m.Block? && Acknowledges(snd, m.k) && !y.c.s.ctl.shouldClose {
        assert Acknowledges(snd, m.k) && ShadowNext(g, y, h, t).link.snd == Acknowledge(snd, m.k);
      }
    case _ =>
  }

  /** The 16-bit session follows a Go-Back-N sender with unbounded numbers,
      whose window never holds more than `w` blocks. */
  lemma SessionIsGoBackN(g: GetConfig, ring: seq<Slot>, run: seq<Step>, t: Step)
    requires ValidGet(g) && ValidRing(g, ring) && ValidRun(g, ring, run)
    requires Can(g, Exec(g, ring, run), t)
    ensures ValidRun(g, ring, run + [t])
    ensures var snd := ShadowOf(g, ring, run).link.snd;
            && SenderStep(snd, ShadowOf(g, ring, run + [t]).link.snd, g.session.windowSize)
            && snd.begin <= snd.next <= snd.begin + g.session.windowSize
            && (1 <= snd.begin ==> Exec(g, ring, run).c.s.win == Window(Wrap16(snd.begin), Wrap16(snd.next)))
  {
    assert (run + [t])[..|run + [t]| - 1] == run;
    RunInv(g, ring, run);
    ShadowNextSends(g, Exec(g, ring, run), ShadowOf(g, ring, run), t);
    hide ShadowNext, Inv, ValidGet, SenderStep;
  }

  /** What the text of the protocol calls block `k` of a file. */
  predicate IsDataOf(g: GetConfig, p: Packet, k: nat)
  {
    var bs: nat := g.session.blockSize;
    && 1 <= bs && 1 <= k <= |g.file| / bs + 1
    && p.Data? && p.block == k % 0x1_0000
    && (k - 1) * bs <= |g.file|
    && p.payload == g.file[(k - 1) * bs..Min(k * bs, |g.file|)]
    && (|p.payload| < bs <==> k == |g.file| / bs + 1)
  }

  lemma BlockIsData(g: GetConfig, src: Source, closing: bool, snd: Sender, k: nat)
    requires ValidConfig(g.session) && FileRel(g, src, closing, snd) && 1 <= k < snd.next && snd.begin <= snd.next
    requires snd.begin == 0 ==> snd.next == 1
    ensures IsDataOf(g, Wire(g, Block(k)), k)
  {
    var bs: nat := g.session.blockSize;
    FullBlock(g, src, closing, snd, k);
    BlockExistsIff(g.file, bs, k);
    ShortBlockIsLast(g.file, bs, k);
    LastBlockIsLast(g.file, bs);
    if IsLastBlock(g.file, bs, k) {
      LastBlockUnique(g.file, bs, k, LastBlock(g.file, bs));
    }
    OffsetIsProduct(bs, k - 1);
    OffsetIsProduct(bs, k);
    hide Offset, FileRel;
  }

  /** Everything the session ever sends, first time or again, is the OACK
      (number 0), an ERROR, or the numbered block of the file, which is short
      exactly when it is the last; and it never goes back a full window. */
  lemma EveryTransmission(g: GetConfig, ring: seq<Slot>, run: seq<Step>)
    requires ValidGet(g) && ValidRing(g, ring) && ValidRun(g, ring, run)
    ensures var sent, log := Exec(g, ring, run).c.io.sent, ShadowOf(g, ring, run).link.log;
            && |sent| == |log|
            && (forall i :: 0 <= i < |sent| ==>
                  match log[i]
                  case Abort => sent[i] == Error
                  case Block(k) => if k == 0 then sent[i] == Oack else IsDataOf(g, sent[i], k))
            && NeverBackAWindow(log, g.session.windowSize)
  {
    RunInv(g, ring, run);
    var y, h := Exec(g, ring, run), ShadowOf(g, ring, run);
    forall i | 0 <= i < |h.link.log| && h.link.log[i].Block? && 1 <= h.link.log[i].k
      ensures IsDataOf(g, Wire(g, h.link.log[i]), h.link.log[i].k)
    {
      BlockIsData(g, y.c.s.src, y.c.s.ctl.shouldClose, h.link.snd, h.link.log[i].k);
    }
    hide SessionRel, ClientRel, IsDataOf, ValidGet, Exec, ShadowOf;
  }

  /** A live session has its timer running exactly while the OACK or a block is
      unacknowledged; a time-out round then sends each of them once, so its
      loop never meets an empty window. */
  lemma TimerFollowsWindow(g: GetConfig, ring: seq<Slot>, run: seq<Step>)
    requires ValidGet(g) && ValidRing(g, ring) && ValidRun(g, ring, run)
    ensures var s, snd := Exec(g, ring, run).c.s, ShadowOf(g, ring, run).link.snd;
            && ValidSession(s)
            && (!s.ctl.shouldClose ==>
                  (s.ctl.timerActive <==> OackPending(s) || s.win.begin != s.win.next))
            && (!s.ctl.shouldClose && s.ctl.timerActive ==>
                  |Retransmission(s)| == snd.next - snd.begin >= 1)
  {
    RunInv(g, ring, run);
    var s, h := Exec(g, ring, run).c.s, ShadowOf(g, ring, run);
    RetransmissionLength(g, s, Exec(g, ring, run).pos, h);
    Wrap16Injective(h.link.snd.begin, h.link.snd.next);
    hide RingRel, FileRel, SourceRel, RttRel, ClientRel, Wire, Retransmission, Wrap16, Exec, ShadowOf;
  }

  /** In every run of a read request, as the client and the two channels make
      it, every event returns: the time-outs that do not are not met. */
  lemma ReadAlwaysReturns(g: GetConfig, ring: seq<Slot>, run: seq<Step>, e: Event)
    requires ValidGet(g) && ValidRing(g, ring) && ValidRun(g, ring, run)
    ensures Returns(Exec(g, ring, run).c.s, e)
  {
    TimerFollowsWindow(g, ring, run);
    hide ValidGet, ValidRun, Exec;
  }

  lemma {:induction false} NoSample(io: Io, acts: seq<Action>)
    requires Sample !in acts
    ensures Perform(io, acts).samples == io.samples
  {
    if acts != [] {
      NoSample(io, acts[..|acts| - 1]);
    }
  }

  lemma ReactTakesNoSample(s: Session, e: Event)
    requires ValidSession(s) && Deliverable(s, e) && !s.rtt.active
    ensures Sample !in React(s, e).acts
  {
    hide IsInRange, SlotOf, Wrap16, Retransmission, AckAccepted, ValidSession;
  }

  lemma SampleNeedsTimer(c: Ctx, e: Event)
    requires Enabled(c, e)
    ensures HandleEvent(c, e).io.samples != c.io.samples ==> c.s.rtt.active
  {
    if !c.s.rtt.active {
      ReactTakesNoSample(c.s, e);
      NoSample(Complete(c.io, e), React(c.s, e).acts);
    }
    hide React;
  }

  /** Only an event of the session takes a sample, and only while measuring. */
  lemma StepSample(g: GetConfig, y: System, t: Step)
    requires Can(g, y, t)
    ensures Next(g, y, t).c.io.samples != y.c.io.samples ==> y.c.s.rtt.active
  {
    hide HandleEvent, React, Sends, Enabled;
    match t
    case SessionEvent(e) => SampleNeedsTimer(y.c, e);
    case ReadDone(count) => SampleNeedsTimer(y.c, ReadEvent(g, y, count));
    case ReadFailed => SampleNeedsTimer(y.c, DataAvailable(false, [], false));
    case PacketArrives => SampleNeedsTimer(y.c, PacketReceived(FromPeer(y.toServer[0])));
    case KernelWrites(bytes) => hide FillSlot;
    case _ => hide R.Step;
  }

  /** Karn's rule: when a round trip is measured, the block that started the
      measurement has been sent exactly once. */
  lemma KarnsRule(g: GetConfig, ring: seq<Slot>, run: seq<Step>, t: Step)
    requires ValidGet(g) && ValidRing(g, ring) && ValidRun(g, ring, run)
    requires Can(g, Exec(g, ring, run), t)
    ensures var y, h := Exec(g, ring, run), ShadowOf(g, ring, run);
            Next(g, y, t).c.io.samples != y.c.io.samples ==>
              && y.c.s.rtt.block == Wrap16(h.timed)
              && multiset(h.link.log)[Block(h.timed)] == 1
  {
    hide Next, Can, Exec, ValidRun, ShadowOf, ClientRel, LinkInv, FileRel, SourceRel, RingRel, WindowRel, TimerRel,
      SetupRel, OnWire, AcksOnWire, ReadsRel;
    RunInv(g, ring, run);
    StepSample(g, Exec(g, ring, run), t);
  }

  lemma SampledNumber(s: Session, n: nat)
    requires s.win.next == Wrap16(n)
    ensures Wrap16(s.win.next - 1) == Wrap16(n - 1)
  {
  }

  lemma AckInWindow(g: GetConfig, y: System, h: Shadow, k: nat)
    requires ValidGet(g) && Inv(g, y, h) && h.link.acks != [] && h.link.acks[0] == Block(k) && y.c.s.rtt.active
    ensures h.link.snd.begin <= h.timed < h.link.snd.next && k < h.link.snd.next && h.link.snd.begin <= k + 1
    ensures y.c.s.rtt.block == Wrap16(h.timed) && y.c.s.cfg.adaptive
    ensures y.c.s.win.next == Wrap16(h.link.snd.next) && h.link.snd.next <= h.link.snd.begin + 65535
    ensures AckAccepted(y.c.s, Wrap16(k)) <==> h.link.snd.begin <= k
  {
    hide ClientRel, FileRel, SourceRel, RingRel, Wire, BlockOf, IsInRange, RingSafe;
    var l := h.link;
    if l.snd.begin == 0 {
      assert k == 0;
    } else {
      IsInRangeDecidesWindow(k, l.snd.begin, l.snd.next);
      SampledNumber(y.c.s, l.snd.next);
    }
    hide Wrap16;
  }

  /** When an acknowledgement is measured: the timed block, or the OACK, is among
      those it acknowledges. */
  lemma AckMeasured(g: GetConfig, y: System, h: Shadow)
    requires ValidGet(g) && Inv(g, y, h) && !y.c.s.ctl.shouldClose
    requires h.link.acks != [] && h.link.acks[0].Block?
    ensures var s, k := y.c.s, h.link.acks[0].k;
            Sample in OnAck(s, Wrap16(k)).acts <==> s.rtt.active && Acknowledges(h.link.snd, k) && h.timed <= k
  {
    hide ClientRel, FileRel, SourceRel, RingRel, Wire, BlockOf, IsInRange, Wrap16, RingSafe;
    var s, l, k := y.c.s, h.link, h.link.acks[0].k;
    if s.rtt.active {
      AckInWindow(g, y, h, k);
      IsInRangeDecidesWindow(k, h.timed, l.snd.next);
      SampledNumber(s, l.snd.next);
    }
  }

  lemma {:induction false} SamplesCounted(io: Io, acts: seq<Action>)
    ensures Perform(io, acts).samples >= io.samples
    ensures Perform(io, acts).samples > io.samples <==> Sample in acts
  {
    if acts != [] {
      SamplesCounted(io, acts[..|acts| - 1]);
    }
  }

  lemma ArrivalSamples(s: Session, p: Packet)
    requires s.cfg.request == Read && !s.ctl.shouldClose && p.Ack?
    ensures ValidSession(s) ==> (Sample in React(s, PacketReceived(FromPeer(p))).acts <==> Sample in OnAck(s, p.block).acts)
  {
    hide OnAck, ShouldFetch, ValidSession;
  }

  lemma IsRead(g: GetConfig, y: System, h: Shadow)
    requires Inv(g, y, h)
    ensures y.c.s.cfg.request == Read && ValidSession(y.c.s)
  {
    hide ClientRel, LinkInv;
  }

  lemma ErrorTakesNoSample(s: Session)
    requires ValidSession(s)
    ensures Sample !in React(s, PacketReceived(FromPeer(Error))).acts
  {
    hide ValidSession;
  }

  lemma ArrivalMeasured(g: GetConfig, y: System, h: Shadow)
    requires ValidGet(g) && Inv(g, y, h) && Can(g, y, PacketArrives) && !y.c.s.ctl.shouldClose
    ensures h.link.acks != []
    ensures Next(g, y, PacketArrives).c.io.samples > y.c.io.samples <==>
              && h.link.acks[0].Block? && y.c.s.rtt.active
              && Acknowledges(h.link.snd, h.link.acks[0].k) && h.timed <= h.link.acks[0].k
  {
    hide SessionRel, ClientRel, LinkInv, React, Perform, ValidGet, OnAck, ReportsClosed;
    var e := PacketReceived(FromPeer(y.toServer[0]));
    SamplesCounted(Complete(y.c.io, e), React(y.c.s, e).acts);
    IsRead(g, y, h);
    if h.link.acks[0].Block? {
      ArrivalSamples(y.c.s, y.toServer[0]);
      AckMeasured(g, y, h);
    } else {
      ErrorTakesNoSample(y.c.s);
    }
  }

  /** A round trip is measured if and only if one is being timed and the
      acknowledgement that arrives covers the timed block. */
  lemma MeasuredIff(g: GetConfig, ring: seq<Slot>, run: seq<Step>)
    requires ValidGet(g) && ValidRing(g, ring) && ValidRun(g, ring, run)
    requires var y := Exec(g, ring, run); Can(g, y, PacketArrives) && !y.c.s.ctl.shouldClose
    ensures var y, h := Exec(g, ring, run), ShadowOf(g, ring, run);
            && h.link.acks != []
            && (Next(g, y, PacketArrives).c.io.samples > y.c.io.samples <==>
                  && h.link.acks[0].Block? && y.c.s.rtt.active
                  && Acknowledges(h.link.snd, h.link.acks[0].k) && h.timed <= h.link.acks[0].k)
  {
    RunInv(g, ring, run);
    hide Exec, ShadowOf, ValidRun, ValidGet, ValidRing;
    ArrivalMeasured(g, Exec(g, ring, run), ShadowOf(g, ring, run));
  }

  /** With a window of one the transfer is in lock step (section 4 of RFC
      7440): everything sent is at most the block the client expects next, and
      the numbers sent never decrease. */
  lemma LockStepTransfer(g: GetConfig, ring: seq<Slot>, run: seq<Step>)
    requires ValidGet(g) && ValidRing(g, ring) && ValidRun(g, ring, run) && g.session.windowSize == 1
    ensures var l := ShadowOf(g, ring, run).link;
            && (forall i :: 0 <= i < |l.log| && l.log[i].Block? ==> l.log[i].k <= l.expected)
            && (forall i, j :: 0 <= i < j < |l.log| && l.log[i].Block? && l.log[j].Block? ==> l.log[i].k <= l.log[j].k)
            && (Exec(g, ring, run).client.status == R.Running && !Exec(g, ring, run).client.isFirst ==>
                  Exec(g, ring, run).client.expected == Wrap16(l.expected))
  {
    RunInv(g, ring, run);
    LockStep(ShadowOf(g, ring, run).link);
    hide Exec, ShadowOf, ValidGet;
  }

  /** No DATA is sent before the OACK is acknowledged (RFC 2347). */
  lemma DataAfterOack(g: GetConfig, ring: seq<Slot>, run: seq<Step>)
    requires ValidGet(g) && ValidRing(g, ring) && ValidRun(g, ring, run)
    ensures var c := Exec(g, ring, run).c;
            (exists i :: 0 <= i < |c.io.sent| && c.io.sent[i].Data?) ==> !OackPending(c.s)
  {
    RunInv(g, ring, run);
    hide Exec, ShadowOf, ValidGet, ClientRel, FileRel, SourceRel, RingRel, RttRel, TimerRel, BlockOf;
  }

  /** After the short block the session never reads again. */
  lemma NoReadAfterShortBlock(g: GetConfig, ring: seq<Slot>, run: seq<Step>, i: nat)
    requires ValidGet(g) && ValidRing(g, ring) && ValidRun(g, ring, run)
    requires i < |Exec(g, ring, run).c.io.sent| && Exec(g, ring, run).c.io.sent[i].Data?
    requires |Exec(g, ring, run).c.io.sent[i].payload| < g.session.blockSize
    ensures OpRead !in Exec(g, ring, run).c.io.outstanding
    ensures !ShouldFetch(Exec(g, ring, run).c.s)
  {
    RunInv(g, ring, run);
    var s, h := Exec(g, ring, run).c.s, ShadowOf(g, ring, run);
    FullBlock(g, s.src, s.ctl.shouldClose, h.link.snd, h.link.log[i].k);
    assert s.src.lastPacket != -1;
    hide Exec, ShadowOf, ValidGet, ClientRel, SourceRel, RingRel, RttRel, TimerRel, BlockOf, IsInRange;
  }

  /** The client never sends the session anything but acknowledgements and,
      when it gives up, an ERROR. */
  lemma PeerKeepsToProtocol(g: GetConfig, ring: seq<Slot>, run: seq<Step>)
    requires ValidGet(g) && ValidRing(g, ring) && ValidRun(g, ring, run)
    ensures forall i :: 0 <= i < |Exec(g, ring, run).toServer| ==>
              Exec(g, ring, run).toServer[i].Ack? || Exec(g, ring, run).toServer[i].Error?
  {
    RunInv(g, ring, run);
    hide Exec, ShadowOf, ValidGet, ClientRel, SessionRel, LinkInv;
  }

  // ----------------------------------------------------------- empty window

  /** The window test cannot express an empty window: once the OACK is settled,
      a session takes every number for an acknowledgement of its window if and
      only if the window is empty, and then moves the window behind that
      number. Only channels that keep the order make this harmless. */
  lemma EmptyWindowAcceptsAnything(s: Session)
    requires !OackPending(s)
    ensures (forall a: uint16 :: AckAccepted(s, a)) <==> s.win.begin == s.win.next
    ensures forall a: uint16 :: s.win.begin == s.win.next ==>
              (OnAck(s, a).s.win == s.win <==> a == Wrap16(s.win.begin as int - 1))
  {
    var b, n := s.win.begin, s.win.next;
    if b == n {
      forall a: uint16
        ensures AckAccepted(s, a)
        ensures OnAck(s, a).s.win == s.win <==> a == Wrap16(b as int - 1)
      {
        IsInRangeMeasuresDistance(a, b, b);
      }
    } else {
      WindowTest(b, n, Wrap16(n as int - b as int));
      assert !AckAccepted(s, n);
    }
  }

  // ----------------------------------------------- runs that do take place

  /** Without options the first read is under way from the start. */
  lemma FirstRead(g: GetConfig, ring: seq<Slot>)
    requires ValidGet(g) && ValidRing(g, ring) && !g.session.optionsRequired
    ensures ValidRun(g, ring, [])
    ensures var y := Exec(g, ring, []);
            && y.c.s.src == Source(-1, 0, false, true) && y.pos == 0
            && !y.c.s.ctl.shouldClose && y.c.s.cfg == g.session
            && y.client == R.InitialReceiver(g.client)
  {
    hide RingSafe, LastBlock;
  }

  lemma ReadCanComplete(g: GetConfig, y: System, h: Shadow, count: nat)
    requires Inv(g, y, h) && y.c.s.src.fetching && !y.c.s.ctl.shouldClose
    requires y.pos + count <= |g.file| && count <= y.c.s.cfg.blockSize - y.c.s.src.size
    requires count == 0 ==> y.c.s.src.size == y.c.s.cfg.blockSize || y.pos == |g.file|
    ensures Can(g, y, ReadDone(count))
  {
    hide LinkInv, ClientRel, FileRel, SourceRel, RingRel, TimerRel, RttRel, Wire, AckWire;
    assert OpRead in y.c.io.outstanding;
    assert multiset{OpRead} <= y.c.io.outstanding;
  }

  lemma StepKeepsConfig(g: GetConfig, y: System, h: Shadow, t: Step)
    requires ValidGet(g) && Inv(g, y, h) && Can(g, y, t)
    ensures Next(g, y, t).c.s.cfg == g.session
  {
    StepInv(g, y, h, t);
    hide Next, Can;
  }
}
