/**
 The one event whose handler does not return: a time-out of a live read
 session whose window is empty. Which sessions meet it, whatever their peer
 and the dispatcher do.
 */
module SessionHangs {
  import opened BlockNumbers
  import opened FileBlocks
  import opened Packets
  import opened Session
  import opened SessionJobs
  import opened SessionRuns
  import opened GetInvariant
  import opened GetSteps

  // ---------------------------------------------------------- one time-out

  /** A round over the data window returns if and only if its loop ends, which
      it does if and only if the window is not empty; it then sends each block
      of the window once. On an empty window every number of turns is passed. */
  lemma RoundReturnsIff(s: Session)
    requires ValidSession(s) && Retransmits(s, Timeout(false))
    requires s.cfg.request == Read && !OackPending(s)
    ensures Returns(s, Timeout(false)) <==> exists n: nat :: EndsAfter(s.win.begin, s.win.next, n)
    ensures Returns(s, Timeout(false)) <==> s.win.begin != s.win.next
    ensures forall n: nat :: EndsAfter(s.win.begin, s.win.next, n) ==>
              n == WindowLength(s.win) && Sends(React(s, Timeout(false)).acts) == PacketsFromBegin(s, n)
    ensures !Returns(s, Timeout(false)) ==> forall n: nat :: Turns(s.win.begin, s.win.next, n)
  {
    LoopEndsIff(s.win.begin, s.win.next);
    if s.win.begin != s.win.next {
      RoundSends(s);
    }
    hide React, Sends, EndsAfter, Turns, StoredPacket, PacketsFromBegin;
  }

  // ------------------------------------------------------ the peer's history

  /** The session takes the packet for an acknowledgement of its window. */
  predicate TakesAck(s: Session, e: Event)
  {
    s.cfg.request == Read && Advances(s, e)
  }

  /** It is taken on an empty window, and it is of the block that would be sent
      next. */
  predicate Premature(s: Session, e: Event)
  {
    TakesAck(s, e) && !OackPending(s) && s.win.begin == s.win.next && e.arrival.packet.block == s.win.next
  }

  /** The last acknowledgement that was taken was premature. */
  predicate LastPremature(cfg: Config, ring: seq<Slot>, run: seq<Event>)
    requires ValidSetup(cfg, ring) && ValidRun(cfg, ring, run)
  {
    run != [] &&
    var s, e := Exec(cfg, ring, run[..|run| - 1]).s, run[|run| - 1];
    if TakesAck(s, e) then Premature(s, e) else LastPremature(cfg, ring, run[..|run| - 1])
  }

  /** Blocks sent, not counting retransmissions, since an acknowledgement was taken. */
  function SentSince(cfg: Config, ring: seq<Slot>, run: seq<Event>): (n: nat)
    requires ValidSetup(cfg, ring) && ValidRun(cfg, ring, run)
  {
    if run == [] then 0
    else
      var s, e := Exec(cfg, ring, run[..|run| - 1]).s, run[|run| - 1];
      if TakesAck(s, e) then 0
      else SentSince(cfg, ring, run[..|run| - 1]) + if SendsBlock(s, e) then 1 else 0
  }

  // -------------------------------------------------------------- invariant

  /** The timer and the window of a live read session whose OACK is settled. */
  predicate ClockRel(w: Window, timerActive: bool, fetching: bool, premature: bool, since: nat)
  {
    && (if premature && since == 0 then WindowLength(w) == WRAP - 1 && timerActive
        else if premature && since == 1 then WindowLength(w) == 0 && timerActive
        else timerActive <==> WindowLength(w) != 0)
    && (fetching && WindowLength(w) == WRAP - 1 ==> premature && since == 0)
  }

  predicate HangInv(s: Session, premature: bool, since: nat)
  {
    s.cfg.request == Read && !s.ctl.shouldClose ==>
      if OackPending(s) then s.win.next == 1 && !s.src.fetching
      else ClockRel(s.win, s.ctl.timerActive, s.src.fetching, premature, since)
  }

  // ------------------------------------------------------------------ steps

  /** The read in flight brings one more block. */
  lemma SendKeepsClock(w: Window, timerActive: bool, premature: bool, since: nat)
    requires ClockRel(w, timerActive, true, premature, since)
    ensures var w' := w.(next := Wrap16(w.next + 1));
            ClockRel(w', timerActive || w.begin == w.next, false, premature, since + 1)
  {
    hide Wrap16;
    DistanceAfterSend(w.begin, w.next);
    EmptyIsZero(w.begin, w.next);
  }

  /** In a window that is not empty the next block is not in range. */
  lemma NotTheNext(w: Window, a: uint16)
    requires IsInRange(a, w.begin, Wrap16(w.next - 1)) && w.begin != w.next
    ensures a != w.next
  {
  }

  /** An acknowledgement that a settled session takes. */
  lemma AckKeepsClock(w: Window, a: uint16, fetching: bool)
    requires IsInRange(a, w.begin, Wrap16(w.next - 1))
    ensures var w' := w.(begin := Wrap16(a + 1));
            ClockRel(w', w'.begin != w'.next, fetching, w.begin == w.next && a == w.next, 0)
  {
    hide Wrap16, IsInRange;
    DistanceAfterAck(a, w.next);
    EmptyIsZero(Wrap16(a + 1), w.next);
    if w.begin != w.next {
      NotTheNext(w, a);
    }
  }

  lemma FetchKeepsHang(s: Session, premature: bool, since: nat)
    requires ValidSession(s) && HangInv(s, premature, since) && ShouldFetch(s)
    ensures HangInv(Fetch(s), premature, since)
  {
    hide Wrap16, IsInRange;
    RoomIsDistance(s.win.begin, s.win.next, s.cfg.windowSize);
  }

  /** What the end of a read changes in the window and the timer. */
  lemma AfterRead(s: Session, success: bool, bytes: seq<byte>, atEof: bool)
    requires ValidSession(s) && |bytes| <= s.cfg.blockSize - s.src.size
    ensures var e := DataAvailable(success, bytes, atEof);
            var s' := Dispatch(s, e).s;
            && s'.cfg == s.cfg && !s'.src.fetching
            && s'.ctl.optionsAcked == s.ctl.optionsAcked
            && (!success ==> s'.ctl.shouldClose)
            && (success ==> s'.ctl.shouldClose == s.ctl.shouldClose)
            && s'.win == (if SendsBlock(s, e) then s.win.(next := Wrap16(s.win.next + 1)) else s.win)
            && s'.ctl.timerActive == (s.ctl.timerActive || (SendsBlock(s, e) && s.win.begin == s.win.next))
  {
    hide Wrap16, SlotOf;
  }

  lemma NotFetchingKeepsClock(w: Window, timerActive: bool, premature: bool, since: nat)
    requires ClockRel(w, timerActive, true, premature, since)
    ensures ClockRel(w, timerActive, false, premature, since)
  {
    hide WindowLength;
  }

  lemma DataKeepsHang(s: Session, success: bool, bytes: seq<byte>, atEof: bool, premature: bool, since: nat)
    requires ValidSession(s) && |bytes| <= s.cfg.blockSize - s.src.size
    requires HangInv(s, premature, since) && s.src.fetching
    ensures var e := DataAvailable(success, bytes, atEof);
            HangInv(Dispatch(s, e).s, premature, since + if SendsBlock(s, e) then 1 else 0)
  {
    hide Wrap16, IsInRange, SlotOf, FillSlot, ClockRel, SendNewBlock;
    AfterRead(s, success, bytes, atEof);
    if s.cfg.request == Read && !s.ctl.shouldClose && success {
      SendKeepsClock(s.win, s.ctl.timerActive, premature, since);
      NotFetchingKeepsClock(s.win, s.ctl.timerActive, premature, since);
    }
  }

  /** The acknowledgement of the OACK leaves the window empty and the timer off. */
  lemma SettledClock(fetching: bool)
    ensures ClockRel(Window(1, 1), false, fetching, false, 0)
  {
  }

  lemma ArrivalKeepsHang(s: Session, a: Arrival, premature: bool, since: nat)
    requires HangInv(s, premature, since)
    ensures var e := PacketReceived(a);
            HangInv(OnArrival(s, a).s, if TakesAck(s, e) then Premature(s, e) else premature,
                    if TakesAck(s, e) then 0 else since)
  {
    hide Wrap16, IsInRange, ClockRel;
    var e := PacketReceived(a);
    if TakesAck(s, e) {
      var block := a.packet.block;
      if OackPending(s) {
        SmallNumber(1);
        SettledClock(s.src.fetching);
      } else {
        AckKeepsClock(s.win, block, s.src.fetching);
      }
    }
  }

  lemma DispatchKeepsHang(s: Session, e: Event, premature: bool, since: nat)
    requires ValidSession(s) && Deliverable(s, e) && (e.DataAvailable? ==> s.src.fetching)
    requires HangInv(s, premature, since)
    ensures HangInv(Dispatch(s, e).s,
                    if TakesAck(s, e) then Premature(s, e) else premature,
                    if TakesAck(s, e) then 0 else since + if SendsBlock(s, e) then 1 else 0)
  {
    hide Wrap16, IsInRange, ClockRel, OnArrival, OnDataAvailable, Retransmission, AckAccepted, ValidSession;
    match e
    case DataAvailable(success, bytes, atEof) => DataKeepsHang(s, success, bytes, atEof, premature, since);
    case PacketReceived(a) => ArrivalKeepsHang(s, a, premature, since);
    case _ =>
  }

  lemma DispatchValid(s: Session, e: Event)
    requires ValidSession(s) && Deliverable(s, e)
    ensures ValidSession(Dispatch(s, e).s)
  {
  }

  lemma ReactKeepsHang(s: Session, e: Event, premature: bool, since: nat)
    requires ValidSession(s) && Deliverable(s, e) && (e.DataAvailable? ==> s.src.fetching)
    requires HangInv(s, premature, since)
    ensures HangInv(React(s, e).s,
                    if TakesAck(s, e) then Premature(s, e) else premature,
                    if TakesAck(s, e) then 0 else since + if SendsBlock(s, e) then 1 else 0)
  {
    hide Dispatch, HangInv, ShouldFetch, ValidSession, TakesAck, Premature, SendsBlock;
    DispatchKeepsHang(s, e, premature, since);
    DispatchValid(s, e);
    var s' := Dispatch(s, e).s;
    if ShouldFetch(s') {
      FetchKeepsHang(s', if TakesAck(s, e) then Premature(s, e) else premature,
                     if TakesAck(s, e) then 0 else since + if SendsBlock(s, e) then 1 else 0);
    }
  }

  lemma StartKeepsHang(cfg: Config, ring: seq<Slot>)
    ensures HangInv(InitialSession(cfg, ring), false, 0)
  {
  }

  lemma NothingRead(cfg: Config, ring: seq<Slot>)
    ensures ReadsRel(InitialCtx(cfg, ring))
  {
  }

  lemma {:induction false} RunHang(cfg: Config, ring: seq<Slot>, run: seq<Event>)
    requires ValidSetup(cfg, ring) && ValidRun(cfg, ring, run)
    ensures HangInv(Exec(cfg, ring, run).s, LastPremature(cfg, ring, run), SentSince(cfg, ring, run))
    ensures ReadsRel(Exec(cfg, ring, run))
    ensures Exec(cfg, ring, run).s.cfg == cfg
  {
    hide HangInv, React, Perform, Complete, SendsBlock, TakesAck, Premature, ReadsRel, Deliverable, ReportsClosed;
    if run == [] {
      StartKeepsHang(cfg, ring);
      NothingRead(cfg, ring);
    } else {
      var before, e := run[..|run| - 1], run[|run| - 1];
      RunHang(cfg, ring, before);
      var c := Exec(cfg, ring, before);
      ReadsAfter(c, e);
      ReactKeepsHang(c.s, e, LastPremature(cfg, ring, before), SentSince(cfg, ring, before));
      ReactValid(c.s, e);
    }
  }

  // ---------------------------------------------------------------- results

  lemma TimerOnEmptyWindow(s: Session, premature: bool, since: nat)
    requires HangInv(s, premature, since)
    requires s.cfg.request == Read && !s.ctl.shouldClose && !OackPending(s)
    ensures s.ctl.timerActive && s.win.begin == s.win.next <==> premature && since == 1
  {
    hide Wrap16;
    EmptyIsZero(s.win.begin, s.win.next);
  }

  /** A live read session with its OACK settled has a timer running on an empty
      window exactly when the last acknowledgement it took was of a block not
      yet sent, came on an empty window, and that block alone was sent since. */
  lemma TimerOnEmptyWindowIff(cfg: Config, ring: seq<Slot>, run: seq<Event>)
    requires ValidSetup(cfg, ring) && ValidRun(cfg, ring, run)
    requires var s := Exec(cfg, ring, run).s; cfg.request == Read && !s.ctl.shouldClose && !OackPending(s)
    ensures var s := Exec(cfg, ring, run).s;
            s.ctl.timerActive && s.win.begin == s.win.next <==>
            LastPremature(cfg, ring, run) && SentSince(cfg, ring, run) == 1
  {
    hide Exec, ValidRun, LastPremature, SentSince, HangInv;
    RunHang(cfg, ring, run);
    TimerOnEmptyWindow(Exec(cfg, ring, run).s, LastPremature(cfg, ring, run), SentSince(cfg, ring, run));
  }

  /** The exact sessions whose next time-out never returns. */
  lemma TimeoutReturnsIff(cfg: Config, ring: seq<Slot>, run: seq<Event>, e: Event)
    requires ValidSetup(cfg, ring) && ValidRun(cfg, ring, run)
    ensures var s := Exec(cfg, ring, run).s;
            !Returns(s, e) <==>
            && e == Timeout(false) && cfg.request == Read && !s.ctl.shouldClose && !OackPending(s)
            && s.ctl.retransmission < cfg.retries
            && LastPremature(cfg, ring, run) && SentSince(cfg, ring, run) == 1
  {
    RunHang(cfg, ring, run);
    var s := Exec(cfg, ring, run).s;
    if cfg.request == Read && !s.ctl.shouldClose && !OackPending(s) {
      TimerOnEmptyWindowIff(cfg, ring, run);
    }
    hide Exec, LastPremature, SentSince, HangInv;
  }

  // ------------------------------- peers that acknowledge what they received

  /** Blocks sent so far, not counting retransmissions. */
  function BlocksSent(cfg: Config, ring: seq<Slot>, run: seq<Event>): (n: nat)
    requires ValidSetup(cfg, ring) && ValidRun(cfg, ring, run)
  {
    if run == [] then 0
    else
      BlocksSent(cfg, ring, run[..|run| - 1]) +
      if SendsBlock(Exec(cfg, ring, run[..|run| - 1]).s, run[|run| - 1]) then 1 else 0
  }

  predicate SentNumber(sent: nat, k: nat, a: uint16)
  {
    k <= sent < k + WRAP - 1 && a == Wrap16(k)
  }

  /** The number of one of the last 65535 of `sent` blocks, or of the OACK. */
  predicate OfSentBlock(sent: nat, a: uint16)
  {
    exists k: nat | k <= sent :: SentNumber(sent, k, a)
  }

  /** Every acknowledgement the session took was of a block it had sent. */
  predicate AcknowledgesSentBlocks(cfg: Config, ring: seq<Slot>, run: seq<Event>)
    requires ValidSetup(cfg, ring) && ValidRun(cfg, ring, run)
  {
    run == [] ||
    var before, e := run[..|run| - 1], run[|run| - 1];
    && AcknowledgesSentBlocks(cfg, ring, before)
    && (TakesAck(Exec(cfg, ring, before).s, e) ==> OfSentBlock(BlocksSent(cfg, ring, before), e.arrival.packet.block))
  }

  lemma StartsAtOne(cfg: Config, ring: seq<Slot>)
    requires ValidSetup(cfg, ring)
    ensures ValidRun(cfg, ring, []) && Exec(cfg, ring, []).s.win.next == Wrap16(1)
  {
  }

  /** The session numbers its blocks from 1. */
  lemma {:induction false} NextAfterSent(cfg: Config, ring: seq<Slot>, run: seq<Event>)
    requires ValidSetup(cfg, ring) && ValidRun(cfg, ring, run)
    ensures Exec(cfg, ring, run).s.win.next == Wrap16(BlocksSent(cfg, ring, run) + 1)
  {
    hide ValidRun, Exec, React, Perform, Complete, SendsBlock, Enabled, Wrap16, ValidSetup;
    if run == [] {
      StartsAtOne(cfg, ring);
    } else {
      LastStep(cfg, ring, run);
      var before, e := run[..|run| - 1], run[|run| - 1];
      NextAfterSent(cfg, ring, before);
      NextAfter(Exec(cfg, ring, before), e);
      NextNumber(BlocksSent(cfg, ring, before) + 1);
    }
  }

  /** The next block has not been sent. */
  lemma NextNotSent(sent: nat, a: uint16)
    requires OfSentBlock(sent, a)
    ensures a != Wrap16(sent + 1)
  {
    hide Wrap16;
    var k: nat :| k <= sent && SentNumber(sent, k, a);
    Wrap16Injective(k, sent + 1);
  }

  /** Every time-out of a session returns if its peer acknowledges only blocks
      it may have received. */
  lemma {:induction false} SentBlocksAcknowledged(cfg: Config, ring: seq<Slot>, run: seq<Event>)
    requires ValidSetup(cfg, ring) && ValidRun(cfg, ring, run) && AcknowledgesSentBlocks(cfg, ring, run)
    ensures !LastPremature(cfg, ring, run)
    ensures forall e :: Returns(Exec(cfg, ring, run).s, e)
  {
    hide Exec, OfSentBlock, Returns, Wrap16, AckAccepted, ValidRun, Enabled, ValidSetup;
    if run != [] {
      LastStep(cfg, ring, run);
      var before, e := run[..|run| - 1], run[|run| - 1];
      SentBlocksAcknowledged(cfg, ring, before);
      var s := Exec(cfg, ring, before).s;
      NextAfterSent(cfg, ring, before);
      if TakesAck(s, e) {
        NextNotSent(BlocksSent(cfg, ring, before), e.arrival.packet.block);
      }
    }
    forall e ensures Returns(Exec(cfg, ring, run).s, e) {
      TimeoutReturnsIff(cfg, ring, run, e);
    }
  }

  // ---------------------------------------------------------- a run that hangs

  /** A read request without options begins by reading block 1. */
  lemma AfterStart(cfg: Config, ring: seq<Slot>)
    requires ValidSetup(cfg, ring) && cfg.request == Read && !cfg.optionsRequired
    ensures Enabled(InitialCtx(cfg, ring), Start(true))
    ensures var c := HandleEvent(InitialCtx(cfg, ring), Start(true));
            && ValidSession(c.s) && c.s.cfg == cfg && c.s.ring == ring
            && c.s == InitialSession(cfg, ring).(src := Source(-1, 0, false, true))
            && OpRecv in c.io.outstanding && OpRead in c.io.outstanding
  {
    hide Perform;
    var c := InitialCtx(cfg, ring);
    var acts := [Submit(OpRecv)] + [Submit(OpRead)];
    assert React(c.s, Start(true)).acts == acts;
    assert acts[0] == Submit(OpRecv) && acts[1] == Submit(OpRead);
    SubmittedIsOutstanding(Complete(c.io, Start(true)), acts);
  }

  /** The acknowledgement that comes too early moves the window past its end. */
  lemma AfterEarlyAck(c: Ctx)
    requires ValidSession(c.s) && c.s.cfg.request == Read && !c.s.cfg.optionsRequired
    requires c.s == InitialSession(c.s.cfg, c.s.ring).(src := Source(-1, 0, false, true))
    requires OpRecv in c.io.outstanding && OpRead in c.io.outstanding
    ensures var e := PacketReceived(FromPeer(Ack(1)));
            && Enabled(c, e)
            && (var c' := HandleEvent(c, e);
                && ValidSession(c'.s)
                && c'.s == c.s.(win := Window(2, 1), ctl := Control(true, 0, false, false))
                && OpTimeout in c'.io.outstanding && OpRead in c'.io.outstanding)
  {
    hide Perform;
    var e := PacketReceived(FromPeer(Ack(1)));
    var acts := [Submit(OpTimeoutRemove), Submit(OpTimeout)] + [Submit(OpRecv)];
    assert [] + [Submit(OpTimeoutRemove)] + [Submit(OpTimeout)] == [Submit(OpTimeoutRemove), Submit(OpTimeout)];
    assert React(c.s, e).acts == acts;
    assert acts[1] == Submit(OpTimeout);
    SubmittedIsOutstanding(Complete(c.io, e), acts);
    assert OpRead in Complete(c.io, e).outstanding;
  }

  /** Block 1 is sent into a window that is empty afterwards. */
  lemma AfterFirstBlock(c: Ctx, bytes: seq<byte>, atEof: bool)
    requires ValidSession(c.s) && c.s.cfg.request == Read && !c.s.cfg.optionsRequired
    requires c.s.src == Source(-1, 0, false, true)
    requires c.s.win == Window(2, 1) && c.s.ctl == Control(true, 0, false, false)
    requires OpTimeout in c.io.outstanding && OpRead in c.io.outstanding
    requires |bytes| == c.s.cfg.blockSize || (|bytes| < c.s.cfg.blockSize && atEof)
    ensures var e := DataAvailable(true, bytes, atEof);
            && Enabled(c, e)
            && (var c' := HandleEvent(c, e);
                && c'.s.cfg == c.s.cfg && c'.s.win == Window(2, 2)
                && c'.s.ctl == Control(true, 0, false, false) && OpTimeout in c'.io.outstanding)
  {
    hide Perform, SlotOf;
    var e := DataAvailable(true, bytes, atEof);
    SubmittedIsOutstanding(Complete(c.io, e), React(c.s, e).acts);
    assert OpTimeout in Complete(c.io, e).outstanding;
  }

  lemma NeverReturns(c: Ctx)
    requires c.s.cfg.request == Read && !c.s.cfg.optionsRequired && 1 <= c.s.cfg.retries
    requires c.s.win == Window(2, 2) && c.s.ctl == Control(true, 0, false, false)
    ensures !ReportsClosed(c) && !Returns(c.s, Timeout(false))
    ensures forall n: nat :: Turns(c.s.win.begin, c.s.win.next, n)
  {
    hide Turns;
    LoopEndsIff(2, 2);
  }

  lemma ExtendRun(cfg: Config, ring: seq<Slot>, run: seq<Event>, e: Event)
    requires ValidSetup(cfg, ring)
    requires if run == [] then MayHandle(InitialCtx(cfg, ring), e, true)
             else ValidRun(cfg, ring, run) && MayHandle(Exec(cfg, ring, run), e, false)
    ensures ValidRun(cfg, ring, run + [e])
    ensures Exec(cfg, ring, run + [e]) ==
              HandleEvent(if run == [] then InitialCtx(cfg, ring) else Exec(cfg, ring, run), e)
  {
    hide HandleEvent, ValidSetup, MayHandle;
    assert (run + [e])[..|run + [e]| - 1] == run;
  }

  lemma RunOfThree(cfg: Config, ring: seq<Slot>, a: Event, b: Event, d: Event)
    requires ValidSetup(cfg, ring)
    requires a.Start? && !b.Start? && !d.Start?
    requires Enabled(InitialCtx(cfg, ring), a)
    requires var c := HandleEvent(InitialCtx(cfg, ring), a);
             && Enabled(c, b) && !c.s.ctl.shouldClose
             && Enabled(HandleEvent(c, b), d) && !HandleEvent(c, b).s.ctl.shouldClose
    ensures ValidRun(cfg, ring, [a, b, d])
    ensures Exec(cfg, ring, [a, b, d]) == HandleEvent(HandleEvent(HandleEvent(InitialCtx(cfg, ring), a), b), d)
  {
    hide HandleEvent, Enabled, ValidSetup, ValidRun, Exec;
    assert [] + [a] == [a] && [a] + [b] == [a, b] && [a, b] + [d] == [a, b, d];
    ExtendRun(cfg, ring, [], a);
    ExtendRun(cfg, ring, [a], b);
    ExtendRun(cfg, ring, [a, b], d);
  }

  /** The acknowledgement of block 1 arrives while that block is being read: the
      window begins past its end, block 1 makes it empty with the timer running,
      and the next time-out goes round for ever. */
  lemma EarlyAckHangs(cfg: Config, ring: seq<Slot>, bytes: seq<byte>, atEof: bool)
    requires ValidSetup(cfg, ring) && cfg.request == Read && !cfg.optionsRequired && 1 <= cfg.retries
    requires |bytes| == cfg.blockSize || (|bytes| < cfg.blockSize && atEof)
    ensures var run := [Start(true), PacketReceived(FromPeer(Ack(1))), DataAvailable(true, bytes, atEof)];
            && ValidRun(cfg, ring, run)
            && (var c := Exec(cfg, ring, run);
                && OpTimeout in c.io.outstanding && !ReportsClosed(c)
                && !Returns(c.s, Timeout(false))
                && forall n: nat :: Turns(c.s.win.begin, c.s.win.next, n))
  {
    var a, b, d := Start(true), PacketReceived(FromPeer(Ack(1))), DataAvailable(true, bytes, atEof);
    hide HandleEvent, Exec, ValidRun, ValidSession, Enabled, InitialSession, Turns, ReportsClosed, Returns;
    AfterStart(cfg, ring);
    var c := HandleEvent(InitialCtx(cfg, ring), a);
    AfterEarlyAck(c);
    AfterFirstBlock(HandleEvent(c, b), bytes, atEof);
    RunOfThree(cfg, ring, a, b, d);
    NeverReturns(HandleEvent(HandleEvent(c, b), d));
  }
}
