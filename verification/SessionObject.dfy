/**
 The server session as the object session.c updates in place. Each handler is
 proved against the function of the same name on values.
 */
module SessionObject {
  import opened BlockNumbers
  import opened FileBlocks
  import opened Packets
  import opened Session

  /** What the worker is told, if anything. */
  datatype Answer = Idle | Closed | NoAnswer

  /** What a reaction leaves behind. */
  function After(io: Io, r: Reaction): (c: Ctx)
  {
    Ctx(r.s, Perform(io, r.acts))
  }

  lemma PerformNone(io: Io)
    ensures Perform(io, []) == io
  {
  }

  lemma {:induction false} PerformBoth(io: Io, a: seq<Action>, b: seq<Action>)
    ensures Perform(io, a + b) == Perform(Perform(io, a), b)
    decreases |b|
  {
    hide PerformOne;
    if b == [] {
      assert a + b == a;
    } else {
      assert (a + b)[..|a + b| - 1] == a + b[..|b| - 1];
      PerformBoth(io, a, b[..|b| - 1]);
    }
  }

  lemma PerformLast(io: Io, a: seq<Action>, last: Action)
    ensures Perform(io, a + [last]) == PerformOne(Perform(io, a), last)
  {
    assert (a + [last])[..|a + [last]| - 1] == a;
    hide PerformOne;
  }

  lemma Perform1(io: Io, a: Action)
    ensures Perform(io, [a]) == PerformOne(io, a)
  {
    PerformNone(io);
    PerformLast(io, [], a);
    assert [] + [a] == [a];
    hide PerformOne, Perform;
  }

  lemma Perform2(io: Io, a: Action, b: Action)
    ensures Perform(io, [a, b]) == PerformOne(PerformOne(io, a), b)
  {
    Perform1(io, a);
    PerformLast(io, [a], b);
    assert [a] + [b] == [a, b];
    hide PerformOne, Perform;
  }

  lemma Perform3(io: Io, a: Action, b: Action, c: Action)
    ensures Perform(io, [a, b, c]) == PerformOne(PerformOne(PerformOne(io, a), b), c)
  {
    Perform2(io, a, b);
    PerformLast(io, [a, b], c);
    assert [a, b] + [c] == [a, b, c];
    hide PerformOne, Perform;
  }

  lemma SendPerhapsSubmit(io: Io, packet: Packet)
    ensures Perform(io, [Send(packet)] + []) == PerformOne(io, Send(packet))
    ensures Perform(io, [Send(packet)] + [Submit(OpTimeout)])
         == PerformOne(PerformOne(io, Send(packet)), Submit(OpTimeout))
  {
    Perform1(io, Send(packet));
    Perform2(io, Send(packet), Submit(OpTimeout));
    assert [Send(packet)] + [] == [Send(packet)] && [Send(packet)] + [Submit(OpTimeout)] == [Send(packet), Submit(OpTimeout)];
    hide PerformOne, Perform;
  }

  lemma SlotInRing(s: Session, i: uint16)
    requires ValidSession(s)
    ensures 1 <= s.cfg.windowSize && SlotOf(i, s.cfg.windowSize) < |s.ring|
    ensures s.src.size <= |s.ring[SlotOf(i, s.cfg.windowSize)].data|
  {
  }

  /** The acknowledged number ends the measurement. */
  predicate Samples(s: Session, block: uint16)
  {
    s.cfg.adaptive && s.rtt.active && IsInRange(block, s.rtt.block, Wrap16(s.win.next - 1))
  }

  /** What an accepted acknowledgement asks for, in the order of the spec. */
  function AckActions(sample: bool, restart: bool): (acts: seq<Action>)
  {
    (if sample then [Sample] else []) +
    [Submit(OpTimeoutRemove)] + (if restart then [Submit(OpTimeout)] else [])
  }

  lemma AckReaction(s: Session, block: uint16)
    requires AckAccepted(s, block)
    ensures var sample, w := Samples(s, block), Window(Wrap16(block + 1), s.win.next);
            && OnAck(s, block).acts == AckActions(sample, w.begin != w.next)
            && OnAck(s, block).s == s.(
                 win := w,
                 rtt := Rtt(s.rtt.active && !sample, s.rtt.block),
                 ctl := Control(w.begin != w.next, 0, s.ctl.optionsAcked || (OackPending(s) && block == 0),
                                s.src.lastPacket != -1 && block == s.src.lastPacket))
  {
    hide IsInRange, Wrap16;
  }

  lemma OneSent(io: Io, p: Packet)
    ensures Perform(io, SendAll([p])) == PerformOne(io, Send(p))
  {
    Perform1(io, Send(p));
    assert SendAll([p]) == [Send(p)];
    hide PerformOne, Perform;
  }

  /** Counting the round and stopping the measurement leave the window as it was. */
  lemma SameWindow(s: Session, s': Session)
    requires ValidSession(s) && ValidSession(s')
    requires s'.cfg == s.cfg && s'.win == s.win && s'.ring == s.ring && s'.src == s.src
    ensures WindowPackets(s') == WindowPackets(s)
  {
    hide WindowLength, SlotOf;
    var a, b := WindowPackets(s), WindowPackets(s');
    forall k | 0 <= k < |a| ensures a[k] == b[k] {
      assert a[k] == StoredPacket(s, Wrap16(s.win.begin + k));
      assert b[k] == StoredPacket(s', Wrap16(s.win.begin + k));
    }
  }

  lemma PerformAck(io: Io, sample: bool, restart: bool)
    ensures var sampled := if sample then PerformOne(io, Sample) else io;
            var removed := PerformOne(sampled, Submit(OpTimeoutRemove));
            Perform(io, AckActions(sample, restart)) ==
              if restart then PerformOne(removed, Submit(OpTimeout)) else removed
  {
    hide Perform, PerformOne;
    PerformNone(io);
    Perform1(io, Sample);
    var first := if sample then [Sample] else [];
    PerformLast(io, first, Submit(OpTimeoutRemove));
    if restart {
      PerformLast(io, first + [Submit(OpTimeoutRemove)], Submit(OpTimeout));
    } else {
      assert AckActions(sample, restart) == first + [Submit(OpTimeoutRemove)];
    }
  }

  class TftpSession {
    const cfg: Config
    const ring: array<Slot>
    var windowBegin: uint16
    var nextDataPacket: uint16
    var lastPacket: int
    var lastBlockSize: nat
    var incompleteRead: bool
    var isFetchingData: bool
    var isTimerActive: bool
    var currentRetransmission: uint8
    var optionsAcknowledged: bool
    var shouldClose: bool
    var measuring: bool
    var startingBlock: uint16
    var expectedNumber: uint16
    var written: seq<byte>
    var io: Io    // dispatcher, `pending_jobs` and socket

    ghost function State(): (s: Session)
      reads this, ring
    {
      Session(cfg, Window(windowBegin, nextDataPacket),
              Source(lastPacket, lastBlockSize, incompleteRead, isFetchingData),
              Control(isTimerActive, currentRetransmission, optionsAcknowledged, shouldClose),
              Rtt(measuring, startingBlock), Sink(expectedNumber, written), ring[..])
    }

    ghost function Value(): (c: Ctx)
      reads this, ring
    {
      Ctx(State(), io)
    }

    ghost predicate Valid()
      reads this, ring
    {
      ValidSession(State())
    }

    /** `tftp_session_init`, with the configuration its request will give it. */
    constructor (config: Config, packets: array<Slot>)
      requires ValidConfig(config) && packets.Length == config.windowSize
      requires forall i :: 0 <= i < packets.Length ==> |packets[i].data| == config.blockSize
      ensures Valid() && ring == packets && Value() == InitialCtx(config, packets[..])
    {
      cfg, ring := config, packets;
      windowBegin, nextDataPacket := 1, 1;
      lastPacket, lastBlockSize, incompleteRead, isFetchingData := -1, 0, false, false;
      isTimerActive, currentRetransmission, optionsAcknowledged, shouldClose := false, 0, false, false;
      measuring, startingBlock, expectedNumber, written := false, 0, 1, [];
      io := Io(multiset{}, 0, [], 0);
    }

    // ------------------------------------------------ socket and dispatcher

    method SendTo(p: Packet)
      modifies this`io
      ensures io == PerformOne(old(io), Send(p))
    {
      io := io.(sent := io.sent + [p]);
    }

    method SubmitOp(op: Op)
      modifies this`io
      ensures io == PerformOne(old(io), Submit(op))
    {
      io := io.(outstanding := io.outstanding + multiset{op}, pendingJobs := Wrap8(io.pendingJobs + 1));
    }

    method SubmitTimeout()
      modifies this`io, this`isTimerActive
      ensures isTimerActive && io == PerformOne(old(io), Submit(OpTimeout))
    {
      SubmitOp(OpTimeout);
      isTimerActive := true;
    }

    method SubmitCancelTimeout()
      modifies this`io, this`isTimerActive
      ensures !isTimerActive && io == PerformOne(old(io), Submit(OpTimeoutRemove))
    {
      SubmitOp(OpTimeoutRemove);
      isTimerActive := false;
    }

    /** `adaptive_timeout_start_timer` and the block it times. */
    method StartTimer(block: uint16)
      modifies this`measuring, this`startingBlock
      ensures measuring && startingBlock == block
    {
      measuring, startingBlock := true, block;
    }

    method StopTimer()
      modifies this`measuring, this`io
      ensures !measuring && io == PerformOne(old(io), Sample)
    {
      measuring := false;
      io := io.(samples := io.samples + 1);
    }

    // ------------------------------------------------------------- handlers

    method Start(valid: bool)
      requires Valid()
      modifies this
      ensures Value() == After(old(io), OnStart(old(State()), valid))
    {
      hide Perform, PerformOne, ValidSession;
      ghost var before := io;
      PerformNone(before);
      if !valid {
        shouldClose := true;
        return;
      }
      if cfg.optionsRequired && !optionsAcknowledged {
        Perform3(before, Submit(OpTimeout), Send(Oack), Submit(OpRecv));
        if cfg.adaptive {
          StartTimer(0);
        }
        SubmitTimeout();
        SendTo(Oack);
      } else if cfg.request == Write {
        Perform2(before, Send(Ack(0)), Submit(OpRecv));
        SendTo(Ack(0));
      } else {
        Perform1(before, Submit(OpRecv));
      }
      SubmitOp(OpRecv);
    }

    /** The kernel has put the bytes of the read into their slot. */
    method ReadInto(bytes: seq<byte>)
      requires Valid() && |bytes| <= cfg.blockSize - lastBlockSize
      modifies ring
      ensures State() == FillSlot(old(State()), bytes)
    {
      var i := SlotOf(nextDataPacket, cfg.windowSize);
      var d := ring[i].data;
      ring[i] := ring[i].(data := d[..lastBlockSize] + bytes + d[lastBlockSize + |bytes|..]);
    }

    /** The first half of `create_data_packets`: true when the block is complete. */
    method CountBytes(count: nat, atEof: bool) returns (complete: bool)
      modifies this`lastBlockSize, this`incompleteRead
      ensures complete <==> !(count < cfg.blockSize && !atEof)
      ensures lastBlockSize == old(lastBlockSize) + count
      ensures incompleteRead == (old(incompleteRead) || !complete)
    {
      lastBlockSize := lastBlockSize + count;
      if count < cfg.blockSize && !atEof {
        incompleteRead := true;
        return false;
      }
      return true;
    }

    method HandleData(success: bool, bytes: seq<byte>, atEof: bool)
      requires Valid() && |bytes| <= cfg.blockSize - lastBlockSize
      modifies this, ring
      ensures Value() == After(old(io), OnDataAvailable(old(State()), success, bytes, atEof))
    {
      hide Perform, PerformOne, SendNewBlock;
      PerformNone(io);
      Perform1(io, Send(Error));
      if !success {
        shouldClose := true;
        SendTo(Error);
        return;
      }
      ReadInto(bytes);
      var complete := CountBytes(|bytes|, atEof);
      hide FillSlot;
      if complete {
        TransmitNewBlock();
      }
    }

    /** The second half of `create_data_packets` and the rest of
        `on_data_available`: number the block and send it. */
    method TransmitNewBlock()
      requires Valid()
      modifies this, ring
      ensures Value() == After(old(io), SendNewBlock(old(State())))
    {
      hide Perform, PerformOne, SlotOf, ValidSession, Wrap16;
      SlotInRing(State(), nextDataPacket);
      var i := SlotOf(nextDataPacket, cfg.windowSize);
      ghost var packet := Data(nextDataPacket, ring[i].data[..lastBlockSize]);
      SendPerhapsSubmit(io, packet);
      ring[i] := ring[i].(block := nextDataPacket);
      if cfg.adaptive && !measuring {
        StartTimer(nextDataPacket);
      }
      SendTo(Data(ring[i].block, ring[i].data[..lastBlockSize]));
      if lastBlockSize < cfg.blockSize {
        lastPacket := nextDataPacket;
      }
      if windowBegin == nextDataPacket {
        SubmitTimeout();
      }
      nextDataPacket := Wrap16(nextDataPacket + 1);
    }

    /** `get_data_packet_info`. */
    method PacketFor(i: uint16) returns (p: Packet)
      requires Valid()
      ensures p == StoredPacket(State(), i)
    {
      var slot := ring[SlotOf(i, cfg.windowSize)];
      var size := if i == lastPacket then lastBlockSize else cfg.blockSize;
      p := Data(slot.block, slot.data[..size]);
    }

    /** The retransmission loop: it ends after exactly `next - begin` sends. */
    method ResendWindow()
      requires Valid() && windowBegin != nextDataPacket
      modifies this`io
      ensures io == Perform(old(io), SendAll(WindowPackets(State())))
    {
      hide Perform, PerformOne, StoredPacket, IsInRange, Wrap16;
      SmallNumber(windowBegin);
      ghost var before, ps := io, WindowPackets(State());
      ghost var n := 0;
      var i: uint16 := windowBegin;
      PerformNone(before);
      assert SendAll(ps[..0]) == [];
      while IsInRange(i, windowBegin, Wrap16(nextDataPacket - 1))
        invariant 0 <= n <= |ps| && i == Wrap16(windowBegin + n)
        invariant io == Perform(before, SendAll(ps[..n]))
        decreases |ps| - n
      {
        WindowTest(windowBegin, nextDataPacket, n);
        var p := PacketFor(i);
        assert p == ps[n];
        assert SendAll(ps[..n + 1]) == SendAll(ps[..n]) + [Send(p)];
        PerformLast(before, SendAll(ps[..n]), Send(p));
        SendTo(p);
        NextNumber(windowBegin + n);
        i := Wrap16(i + 1);
        n := n + 1;
      }
      WindowTest(windowBegin, nextDataPacket, n);
      assert ps[..n] == ps;
    }

    /** `on_timeout`. Its loop ends unless there is nothing to send again; then
        the session has counted the round and restarted the timer. */
    method HandleTimeout() returns (ends: bool)
      requires Valid()
      modifies this
      ensures ends <==> old(currentRetransmission >= cfg.retries || SomethingToResend(State()))
      ensures ends ==> Value() == After(old(io), OnTimeout(old(State())))
      ensures !ends ==> Value() == Ctx(OnTimeout(old(State())).s, PerformOne(old(io), Submit(OpTimeout)))
    {
      hide Perform, PerformOne, WindowPackets, StoredPacket;
      Perform2(io, Submit(OpRecvCancel), Send(Error));
      PerformBoth(io, [Submit(OpTimeout)], SendAll(Retransmission(State())));
      Perform1(io, Submit(OpTimeout));
      if currentRetransmission >= cfg.retries {
        shouldClose := true;
        SubmitOp(OpRecvCancel);
        SendTo(Error);
        return true;
      }
      ends := Resend();
    }

    /** What `on_timeout` does while retransmissions are left. */
    method Resend() returns (ends: bool)
      requires Valid() && currentRetransmission < cfg.retries
      modifies this
      ensures ends <==> SomethingToResend(old(State()))
      ensures State() == OnTimeout(old(State())).s
      ensures ends ==> io == Perform(PerformOne(old(io), Submit(OpTimeout)), SendAll(Retransmission(old(State()))))
      ensures !ends ==> io == PerformOne(old(io), Submit(OpTimeout))
    {
      hide Perform, PerformOne, WindowPackets;
      ghost var before := State();
      ghost var start := PerformOne(io, Submit(OpTimeout));
      OneSent(start, Oack);
      OneSent(start, Ack(Wrap16(expectedNumber - 1)));
      currentRetransmission := currentRetransmission + 1;
      if cfg.adaptive {
        measuring := false;
      }
      SubmitTimeout();
      if cfg.optionsRequired && !optionsAcknowledged {
        SendTo(Oack);
      } else if cfg.request == Write {
        SendTo(Ack(Wrap16(expectedNumber - 1)));
      } else if windowBegin == nextDataPacket {
        return false;   // the loop goes round for ever (`BlockNumbers.LoopEndsIff`)
      } else {
        SameWindow(before, State());
        ResendWindow();
      }
      return true;
    }

    method HandleDataPacket(block: uint16, payload: seq<byte>)
      modifies this
      ensures Value() == After(old(io), OnData(old(State()), block, payload))
    {
      hide Perform, PerformOne, Wrap16;
      PerformNone(io);
      Perform1(io, Send(Ack(block)));
      if !optionsAcknowledged && cfg.optionsRequired && block == 1 {
        optionsAcknowledged := true;
      } else if block != expectedNumber {
        return;
      }
      AcceptData(block, payload);
    }

    method AcceptData(block: uint16, payload: seq<byte>)
      modifies this`written, this`io, this`expectedNumber, this`currentRetransmission, this`shouldClose
      ensures io == PerformOne(old(io), Send(Ack(block)))
      ensures written == old(written) + payload && expectedNumber == Wrap16(old(expectedNumber) + 1)
      ensures currentRetransmission == 0 && shouldClose == (|payload| < cfg.blockSize)
    {
      written := written + payload;
      SendTo(Ack(block));
      expectedNumber := Wrap16(expectedNumber + 1);
      currentRetransmission := 0;
      shouldClose := |payload| < cfg.blockSize;
    }

    method HandleAck(block: uint16)
      modifies this
      ensures Value() == After(old(io), OnAck(old(State()), block))
    {
      hide Perform, PerformOne, IsInRange, AckActions, Wrap16;
      ghost var s := State();
      PerformNone(io);
      if !optionsAcknowledged && cfg.optionsRequired && block == 0 {
        optionsAcknowledged := true;
      } else if !IsInRange(block, windowBegin, Wrap16(nextDataPacket - 1)) {
        return;
      }
      AckReaction(s, block);
      MoveWindow(block);
      currentRetransmission := 0;
      shouldClose := lastPacket != -1 && block == lastPacket;
    }

    /** The window, the measurement and the timer after an accepted number. */
    method MoveWindow(block: uint16)
      modifies this
      ensures var sample := old(Samples(State(), block));
              && State() == old(State()).(
                   win := Window(Wrap16(block + 1), old(nextDataPacket)),
                   rtt := Rtt(old(measuring) && !sample, old(startingBlock)),
                   ctl := Control(Wrap16(block + 1) != old(nextDataPacket), old(currentRetransmission),
                                  old(optionsAcknowledged), old(shouldClose)))
              && io == Perform(old(io), AckActions(sample, Wrap16(block + 1) != old(nextDataPacket)))
    {
      hide Perform, PerformOne, IsInRange, AckActions, Wrap16;
      PerformAck(io, Samples(State(), block), Wrap16(block + 1) != nextDataPacket);
      windowBegin := Wrap16(block + 1);
      if cfg.adaptive && measuring && IsInRange(block, startingBlock, Wrap16(nextDataPacket - 1)) {
        StopTimer();
      }
      SubmitCancelTimeout();
      if windowBegin != nextDataPacket {
        SubmitTimeout();
      }
    }

    method HandlePacket(p: Packet)
      modifies this
      ensures Value() == After(old(io), OnPacket(old(State()), p))
    {
      hide Perform, PerformOne, OnData, OnAck;
      PerformNone(io);
      Perform1(io, Send(Error));
      if p.Error? {
        shouldClose := true;
      } else if p.Data? && cfg.request == Write {
        HandleDataPacket(p.block, p.payload);
      } else if p.Ack? && cfg.request == Read {
        HandleAck(p.block);
      } else {
        shouldClose := true;
        SendTo(Error);
      }
    }

    method HandleArrival(a: Arrival)
      modifies this
      ensures Value() == After(old(io), OnArrival(old(State()), a))
    {
      hide Perform, PerformOne, OnPacket;
      PerformNone(io);
      Perform1(io, Submit(OpRecv));
      if shouldClose || a.RecvCancelled? {
        return;
      }
      ghost var r := if a.FromPeer? then OnPacket(State(), a.packet) else Reaction(State(), []);
      PerformLast(io, r.acts, Submit(OpRecv));
      if a.FromPeer? {
        HandlePacket(a.packet);
      }
      if !shouldClose {
        SubmitOp(OpRecv);
      }
    }

    /** The `switch` of `tftp_session_handle_event`. */
    method HandleKind(e: Event) returns (ends: bool)
      requires Valid() && Deliverable(State(), e)
      modifies this, ring
      ensures ends <==> Returns(old(State()), e)
      ensures ends ==> Value() == After(old(io), Dispatch(old(State()), e))
      ensures !ends ==> Value() == Ctx(Dispatch(old(State()), e).s, PerformOne(old(io), Submit(OpTimeout)))
    {
      hide Perform, OnStart, OnTimeout, OnArrival, OnDataAvailable;
      PerformNone(io);
      ends := true;
      match e
      case Start(valid) => Start(valid);
      case Timeout(cancelled) =>
        if !cancelled && !shouldClose && isTimerActive {
          ends := HandleTimeout();
        }
      case TimeoutRemoved =>
      case PacketReceived(arrival) => HandleArrival(arrival);
      case PacketReceivedRemoved =>
      case DataAvailable(success, bytes, atEof) =>
        isFetchingData := false;
        HandleData(success, bytes, atEof);
    }

    /** `fetch_data_octet_async`. */
    method FetchData()
      requires !isFetchingData
      modifies this
      ensures State() == Fetch(old(State())) && io == PerformOne(old(io), Submit(OpRead))
    {
      hide Perform, PerformOne;
      isFetchingData := true;
      lastBlockSize := if incompleteRead then lastBlockSize else 0;
      incompleteRead := false;
      SubmitOp(OpRead);
    }

    /** `tftp_session_handle_event`. A time-out it does not return from
        (`SessionHangs.TimeoutReturnsIff`) leaves the session in its loop. */
    method Handle(e: Event) returns (answer: Answer)
      requires MayArrive(Value(), e)
      modifies this, ring
      ensures answer == NoAnswer <==> !Returns(old(State()), e)
      ensures answer != NoAnswer ==> Value() == HandleEvent(old(Value()), e)
      ensures answer != NoAnswer ==> (answer == Closed <==> ReportsClosed(Value()))
      ensures answer == NoAnswer ==>
                Value() == Ctx(Dispatch(old(State()), e).s, PerformOne(Complete(old(io), e), Submit(OpTimeout)))
    {
      hide Perform, PerformOne, Dispatch, Deliverable, ValidSession, IsInRange;
      ghost var start := Complete(io, e);
      if !e.Start? {
        io := io.(outstanding := io.outstanding - Completed(e), pendingJobs := Wrap8(io.pendingJobs - 1));
      }
      ghost var d := Dispatch(State(), e);
      PerformLast(start, d.acts, Submit(OpRead));
      var ends := HandleKind(e);
      if !ends {
        return NoAnswer;
      }
      if cfg.request == Read && !isFetchingData && !shouldClose && (!cfg.optionsRequired || optionsAcknowledged)
         && lastPacket == -1
         && IsInRange(nextDataPacket, windowBegin, Wrap16(windowBegin + cfg.windowSize - 1)) {
        FetchData();
      }
      answer := if shouldClose && io.pendingJobs == 0 then Closed else Idle;
    }
  }
}
