/**
 What a session has under way, in every life of it: it listens as long as it is
 live, its timer is running when it says so, and it closes for seven reasons.
 */
module SessionOperations {
  import opened BlockNumbers
  import opened FileBlocks
  import opened Packets
  import opened Session
  import opened SessionJobs
  import opened SessionRuns

  // ------------------------------------------------------ reasons to close

  /** The packet does not belong to the request. */
  predicate Foreign(request: RequestType, p: Packet)
  {
    p.Oack? || p.Request? || (p.Data? && request == Read) || (p.Ack? && request == Write)
  }

  predicate IsFrom(e: Event, p: Packet)
  {
    e == PacketReceived(FromPeer(p))
  }

  /** The session fails, and tells the peer. */
  predicate Fails(s: Session, e: Event)
  {
    || (e.DataAvailable? && !e.success)
    || (e == Timeout(false) && s.ctl.timerActive && s.ctl.retransmission == s.cfg.retries)
    || (e.PacketReceived? && e.arrival.FromPeer? && Foreign(s.cfg.request, e.arrival.packet))
  }

  /** The transfer ends: the short block is taken, or acknowledged. */
  predicate Finishes(s: Session, e: Event)
  {
    && e.PacketReceived? && e.arrival.FromPeer?
    && (var p := e.arrival.packet;
        || (s.cfg.request == Write && p.Data? && Advances(s, e) && |p.payload| < s.cfg.blockSize)
        || (s.cfg.request == Read && p.Ack? && Advances(s, e) && p.block == s.src.lastPacket))
  }

  lemma PacketCloses(s: Session, p: Packet)
    requires !s.ctl.shouldClose
    ensures OnPacket(s, p).s.ctl.shouldClose <==>
              p.Error? || Foreign(s.cfg.request, p) || Finishes(s, PacketReceived(FromPeer(p)))
  {
    hide IsInRange, Wrap16;
  }

  lemma StoredIsData(s: Session, i: uint16)
    requires ValidSession(s)
    ensures StoredPacket(s, i).Data?
  {
  }

  lemma NoErrorAgain(s: Session)
    requires ValidSession(s)
    ensures Error !in Retransmission(s)
  {
    hide StoredPacket;
    forall p | p in WindowPackets(s) ensures p != Error {
      var i :| 0 <= i < |WindowPackets(s)| && WindowPackets(s)[i] == p;
      StoredIsData(s, Wrap16(s.win.begin + i));
    }
  }

  lemma SendAllIn(ps: seq<Packet>, p: Packet)
    requires Send(p) in SendAll(ps)
    ensures p in ps
  {
  }

  lemma TimeoutErrors(s: Session)
    requires ValidSession(s)
    ensures Send(Error) in OnTimeout(s).acts <==> s.ctl.retransmission >= s.cfg.retries
    ensures s.ctl.retransmission >= s.cfg.retries ==> OnTimeout(s).acts == [Submit(OpRecvCancel)] + [Send(Error)]
  {
    hide Retransmission;
    NoErrorAgain(s);
    if s.ctl.retransmission < s.cfg.retries && Send(Error) in SendAll(Retransmission(s)) {
      SendAllIn(Retransmission(s), Error);
    }
  }

  lemma PacketErrors(s: Session, a: Arrival)
    requires !s.ctl.shouldClose
    ensures Send(Error) in OnArrival(s, a).acts <==> a.FromPeer? && Foreign(s.cfg.request, a.packet)
    ensures Send(Error) in OnArrival(s, a).acts ==> OnArrival(s, a).acts == [Send(Error)]
  {
    hide IsInRange, Wrap16;
  }

  lemma TimeoutCloses(s: Session)
    requires ValidSession(s) && !s.ctl.shouldClose
    ensures OnTimeout(s).s.ctl.shouldClose <==> s.ctl.retransmission >= s.cfg.retries
  {
    hide Retransmission;
  }

  lemma ArrivalCloses(s: Session, a: Arrival)
    requires !s.ctl.shouldClose
    ensures OnArrival(s, a).s.ctl.shouldClose <==>
              a.FromPeer? && (a.packet.Error? || Foreign(s.cfg.request, a.packet) || Finishes(s, PacketReceived(a)))
  {
    hide OnPacket, Foreign, Finishes;
    if a.FromPeer? {
      PacketCloses(s, a.packet);
    }
  }

  lemma DispatchErrors(s: Session, e: Event)
    requires ValidSession(s) && Deliverable(s, e) && !s.ctl.shouldClose && s.ctl.retransmission <= s.cfg.retries
    ensures Send(Error) in Dispatch(s, e).acts <==> Fails(s, e)
    ensures Fails(s, e) ==> Dispatch(s, e).s.ctl.shouldClose
    ensures Fails(s, e) ==> Dispatch(s, e).acts == [Send(Error)] || Dispatch(s, e).acts == [Submit(OpRecvCancel)] + [Send(Error)]
  {
    hide OnTimeout, OnArrival, SlotOf, Wrap16, IsInRange, FillSlot;
    match e
    case Timeout(cancelled) =>
      TimeoutErrors(s);
      TimeoutCloses(s);
    case PacketReceived(a) =>
      PacketErrors(s, a);
      ArrivalCloses(s, a);
    case _ =>
  }

  lemma DispatchCloses(s: Session, e: Event)
    requires ValidSession(s) && Deliverable(s, e) && !s.ctl.shouldClose && s.ctl.retransmission <= s.cfg.retries
    ensures Dispatch(s, e).s.ctl.shouldClose <==>
              || e == Start(false)
              || Fails(s, e)
              || (e.PacketReceived? && e.arrival.FromPeer? && e.arrival.packet.Error?)
              || Finishes(s, e)
  {
    hide OnTimeout, OnArrival, SlotOf, Wrap16, IsInRange, Advances;
    match e
    case Timeout(cancelled) => TimeoutCloses(s);
    case PacketReceived(a) => ArrivalCloses(s, a);
    case _ =>
  }

  lemma JustError()
    ensures Sends([Send(Error)]) == [Error]
  {
  }

  /** A live session closes when the request is not valid, the read fails, the
      budget of rounds is spent, the peer sends an error or a packet that does
      not belong to the request, and when the transfer has ended; it sends an
      ERROR, and nothing else, if and only if it fails. */
  lemma ClosesIff(s: Session, e: Event)
    requires ValidSession(s) && Deliverable(s, e) && !s.ctl.shouldClose && s.ctl.retransmission <= s.cfg.retries
    ensures React(s, e).s.ctl.shouldClose <==>
              || e == Start(false)
              || Fails(s, e)
              || (e.PacketReceived? && e.arrival.FromPeer? && e.arrival.packet.Error?)
              || Finishes(s, e)
    ensures Error in Sends(React(s, e).acts) <==> Fails(s, e)
    ensures Fails(s, e) ==> Sends(React(s, e).acts) == [Error]
  {
    hide Dispatch, Fails, Finishes, Sends, IsInRange, ValidSession;
    DispatchCloses(s, e);
    DispatchErrors(s, e);
    var acts := React(s, e).acts;
    if Error in Sends(acts) {
      SentAreSends(acts, Error);
    }
    if Send(Error) in acts {
      SendIsSent(acts, Error);
    }
    if Fails(s, e) {
      SubmitsOnly(OpRecvCancel);
      JustError();
      SendsConcat([Submit(OpRecvCancel)], [Send(Error)]);
    }
  }

  // ------------------------------------------------- listening and timing

  /** The dispatcher cancels a receive only of a session that is closing, and
      never the timer that is running. */
  predicate CancelsAsked(c: Ctx, e: Event)
  {
    && (e.PacketReceived? && e.arrival.RecvCancelled? ==> c.s.ctl.shouldClose)
    && (e.Timeout? && e.cancelled && !c.s.ctl.shouldClose && c.s.ctl.timerActive ==> 2 <= c.io.outstanding[OpTimeout])
  }

  predicate Cancels(cfg: Config, ring: seq<Slot>, run: seq<Event>)
    requires ValidSetup(cfg, ring) && ValidRun(cfg, ring, run)
  {
    run == [] ||
    (Cancels(cfg, ring, run[..|run| - 1]) && CancelsAsked(Exec(cfg, ring, run[..|run| - 1]), run[|run| - 1]))
  }

  /** One receive is under way as long as the session is live, and a timer if it
      says so. */
  predicate Vigilant(c: Ctx)
  {
    && c.io.outstanding[OpRecv] <= 1
    && (!c.s.ctl.shouldClose ==>
          c.io.outstanding[OpRecv] == 1 && (c.s.ctl.timerActive ==> 1 <= c.io.outstanding[OpTimeout]))
  }

  /** Receives that an event submits. */
  function NewReceives(s: Session, e: Event, s': Session): (n: nat)
  {
    if e.Start? then (if s'.ctl.shouldClose then 0 else 1)
    else if e.PacketReceived? && !s'.ctl.shouldClose && !e.arrival.RecvCancelled? then 1
    else 0
  }

  lemma NoSubmissions()
    ensures Submissions([]) == multiset{}
  {
  }

  lemma OneSubmission(op: Op)
    ensures Submissions([Submit(op)]) == multiset{op}
  {
  }

  lemma NoSubmission(p: Packet)
    ensures Submissions([Send(p)]) == multiset{}
  {
  }

  lemma StartReceives(s: Session, valid: bool)
    requires !s.ctl.shouldClose
    ensures var d := OnStart(s, valid); Submissions(d.acts)[OpRecv] == NewReceives(s, Start(valid), d.s)
    ensures var d := OnStart(s, valid); d.s.ctl.timerActive ==> s.ctl.timerActive || Submit(OpTimeout) in d.acts
  {
    hide Submissions;
    NoSubmissions();
    OneSubmission(OpRecv);
    NoSubmission(Oack);
    NoSubmission(Ack(0));
    OneSubmission(OpTimeout);
    SendsConcat([Submit(OpTimeout)], [Send(Oack)]);
    SendsConcat([Submit(OpTimeout)] + [Send(Oack)], [Submit(OpRecv)]);
    SendsConcat([Send(Ack(0))], [Submit(OpRecv)]);
    assert [Submit(OpTimeout)] + [Send(Oack)] + [Submit(OpRecv)] == [Submit(OpTimeout), Send(Oack), Submit(OpRecv)];
    assert [Send(Ack(0))] + [Submit(OpRecv)] == [Send(Ack(0)), Submit(OpRecv)];
    assert valid && OackPending(s) ==> OnStart(s, valid).acts[0] == Submit(OpTimeout);
  }

  lemma PacketReceives(s: Session, p: Packet)
    ensures var d := OnPacket(s, p);
            && Submit(OpRecv) !in d.acts
            && (d.s.ctl.timerActive ==> s.ctl.timerActive || Submit(OpTimeout) in d.acts)
  {
    hide IsInRange, Wrap16;
    if p.Ack? && s.cfg.request == Read && AckAccepted(s, p.block) {
      var d := OnAck(s, p.block);
      assert d.s.ctl.timerActive ==> d.acts[|d.acts| - 1] == Submit(OpTimeout);
    }
  }

  lemma ArrivalReceives(s: Session, a: Arrival)
    ensures var d := OnArrival(s, a);
            && Submissions(d.acts)[OpRecv] == (if s.ctl.shouldClose then 0 else NewReceives(s, PacketReceived(a), d.s))
            && (!d.s.ctl.shouldClose && d.s.ctl.timerActive ==> s.ctl.timerActive || Submit(OpTimeout) in d.acts)
            && (s.ctl.shouldClose ==> d.s.ctl.shouldClose)
  {
    hide Submissions, IsInRange, Wrap16, OnPacket;
    NoSubmissions();
    OneSubmission(OpRecv);
    if !s.ctl.shouldClose && a.FromPeer? {
      PacketReceives(s, a.packet);
      SubmissionsOf(OnPacket(s, a.packet).acts, OpRecv);
      SendsConcat(OnPacket(s, a.packet).acts, [Submit(OpRecv)]);
    } else {
      assert [] + [Submit(OpRecv)] == [Submit(OpRecv)];
    }
  }

  lemma TimeoutReceives(s: Session)
    requires ValidSession(s)
    ensures var d := OnTimeout(s);
            && Submit(OpRecv) !in d.acts
            && (!d.s.ctl.shouldClose ==> Submit(OpTimeout) in d.acts)
  {
    hide Retransmission;
    assert OnTimeout(s).acts[0] == Submit(OpTimeout) || OnTimeout(s).s.ctl.shouldClose;
  }

  lemma DataReceives(s: Session, success: bool, bytes: seq<byte>, atEof: bool)
    requires ValidSession(s) && |bytes| <= s.cfg.blockSize - s.src.size
    ensures var d := OnDataAvailable(s, success, bytes, atEof);
            && Submit(OpRecv) !in d.acts
            && (d.s.ctl.timerActive ==> s.ctl.timerActive || Submit(OpTimeout) in d.acts)
            && (s.ctl.shouldClose ==> d.s.ctl.shouldClose)
  {
    hide Wrap16, SlotOf;
    if success && (|bytes| >= s.cfg.blockSize || atEof) {
      var d := OnDataAvailable(s, success, bytes, atEof);
      assert s.win.begin == s.win.next ==> d.acts[1] == Submit(OpTimeout);
    }
  }

  /** What the switch submits, apart from reads. */
  predicate Submits(s: Session, e: Event, d: Reaction)
  {
    && (Submissions(d.acts)[OpRecv] == if e.Start? || !s.ctl.shouldClose then NewReceives(s, e, d.s) else 0)
    && (!d.s.ctl.shouldClose && d.s.ctl.timerActive ==>
          Submit(OpTimeout) in d.acts || (s.ctl.timerActive && !(e.Timeout? && !e.cancelled)))
    && (s.ctl.shouldClose && !e.Start? ==> d.s.ctl.shouldClose)
  }

  lemma StillValid(s: Session)
    requires ValidSession(s)
    ensures ValidSession(s.(src := s.src.(fetching := false)))
  {
  }

  lemma DispatchSubmits(s: Session, e: Event)
    requires ValidSession(s) && Deliverable(s, e) && (e.Start? ==> !s.ctl.shouldClose)
    ensures Submits(s, e, Dispatch(s, e))
  {
    hide OnTimeout, OnArrival, OnDataAvailable, OnStart, Submissions, ValidSession;
    NoSubmissions();
    match e
    case Start(valid) => StartReceives(s, valid);
    case Timeout(cancelled) =>
      if !cancelled && !s.ctl.shouldClose && s.ctl.timerActive {
        TimeoutReceives(s);
        SubmissionsOf(OnTimeout(s).acts, OpRecv);
      }
    case PacketReceived(a) => ArrivalReceives(s, a);
    case DataAvailable(success, bytes, atEof) =>
      var s0 := s.(src := s.src.(fetching := false));
      StillValid(s);
      DataReceives(s0, success, bytes, atEof);
      SubmissionsOf(OnDataAvailable(s0, success, bytes, atEof).acts, OpRecv);
    case _ =>
  }

  /** What an event leaves under way. */
  lemma OutstandingAfter(c: Ctx, e: Event)
    requires Enabled(c, e)
    ensures var d, out := Dispatch(c.s, e), HandleEvent(c, e).io.outstanding;
            && (e.Start? ==> out[OpRecv] == c.io.outstanding[OpRecv] + Submissions(d.acts)[OpRecv])
            && (!e.Start? ==>
                  out[OpRecv] == c.io.outstanding[OpRecv] + Submissions(d.acts)[OpRecv] - (if e.PacketReceived? then 1 else 0))
            && out[OpTimeout] >= c.io.outstanding[OpTimeout] - (if e.Timeout? then 1 else 0)
            && (Submit(OpTimeout) in d.acts ==> 1 <= out[OpTimeout])
            && HandleEvent(c, e).s.ctl == d.s.ctl
  {
    hide Dispatch, Submissions, ValidSession, ShouldFetch, Perform;
    var d := Dispatch(c.s, e);
    PerformEffect(Complete(c.io, e), React(c.s, e).acts);
    SubmittedIsOutstanding(Complete(c.io, e), React(c.s, e).acts);
    OneSubmission(OpRead);
    SendsConcat(d.acts, [Submit(OpRead)]);
    assert Completed(e)[OpRecv] == if e.PacketReceived? then 1 else 0;
    assert Completed(e)[OpTimeout] == if e.Timeout? then 1 else 0;
  }

  lemma StaysVigilant(c: Ctx, e: Event)
    requires Enabled(c, e) && CancelsAsked(c, e)
    requires if e.Start? then c.io.outstanding == multiset{} && !c.s.ctl.shouldClose && !c.s.ctl.timerActive else Vigilant(c)
    ensures Vigilant(HandleEvent(c, e))
  {
    hide Dispatch, Submissions, ValidSession, React, Perform, Returns, Deliverable, HandleEvent;
    OutstandingAfter(c, e);
    DispatchSubmits(c.s, e);
  }

  lemma StartsClean(cfg: Config, ring: seq<Slot>)
    requires ValidSetup(cfg, ring)
    ensures ValidRun(cfg, ring, [])
    ensures var c := Exec(cfg, ring, []); c.io.outstanding == multiset{} && !c.s.ctl.shouldClose && !c.s.ctl.timerActive
  {
  }

  /** A live session listens: exactly one receive is under way, and whenever its
      timer is said to run there is one. */
  lemma {:induction false} AlwaysVigilant(cfg: Config, ring: seq<Slot>, run: seq<Event>)
    requires ValidSetup(cfg, ring) && ValidRun(cfg, ring, run) && run != [] && Cancels(cfg, ring, run)
    ensures Vigilant(Exec(cfg, ring, run))
  {
    hide ValidSetup, HandleEvent, ReportsClosed, Enabled, Vigilant, CancelsAsked, InitialCtx;
    LastStep(cfg, ring, run);
    var before, e := run[..|run| - 1], run[|run| - 1];
    if before == [] {
      StartsClean(cfg, ring);
    } else {
      AlwaysVigilant(cfg, ring, before);
    }
    StaysVigilant(Exec(cfg, ring, before), e);
  }

  // ------------------------------------------- closing with a receive left

  lemma NothingCancelled(ps: seq<Packet>)
    ensures Submit(OpRecvCancel) !in SendAll(ps)
  {
  }

  lemma CancelSubmitted(s: Session, e: Event)
    requires ValidSession(s) && Deliverable(s, e) && !s.ctl.shouldClose
    ensures Submit(OpRecvCancel) in Dispatch(s, e).acts <==>
              e == Timeout(false) && s.ctl.timerActive && s.ctl.retransmission >= s.cfg.retries
  {
    hide Retransmission, SlotOf, IsInRange, Wrap16, ValidSession;
    if e == Timeout(false) && s.ctl.timerActive {
      NothingCancelled(Retransmission(s));
      assert s.ctl.retransmission >= s.cfg.retries ==> OnTimeout(s).acts[0] == Submit(OpRecvCancel);
    }
  }

  lemma OnlyAReadMore(c: Ctx, e: Event)
    requires Enabled(c, e)
    ensures Submit(OpRecvCancel) in React(c.s, e).acts <==> Submit(OpRecvCancel) in Dispatch(c.s, e).acts
    ensures HandleEvent(c, e).s.ctl == Dispatch(c.s, e).s.ctl
  {
    hide Dispatch, ValidSession, ShouldFetch, Perform;
  }

  /** A live session that closes on an event leaves its receive under way and
      does not cancel it if and only if a read has failed. */
  lemma LeftListeningIff(c: Ctx, e: Event)
    requires Enabled(c, e) && CancelsAsked(c, e) && !e.Start? && Vigilant(c) && c.s.ctl.retransmission <= c.s.cfg.retries
    requires !c.s.ctl.shouldClose && HandleEvent(c, e).s.ctl.shouldClose
    ensures OpRecv in HandleEvent(c, e).io.outstanding && Submit(OpRecvCancel) !in React(c.s, e).acts <==> e.DataAvailable?
  {
    hide Dispatch, Submissions, ValidSession, Perform, Returns, Deliverable, HandleEvent, ShouldFetch, Advances, Foreign;
    OutstandingAfter(c, e);
    DispatchSubmits(c.s, e);
    CancelSubmitted(c.s, e);
    DispatchCloses(c.s, e);
    OnlyAReadMore(c, e);
  }

  lemma StaysListening(c: Ctx, e: Event)
    requires Enabled(c, e) && !e.Start? && !e.PacketReceived? && c.s.ctl.shouldClose && OpRecv in c.io.outstanding
    ensures var c' := HandleEvent(c, e); c'.s.ctl.shouldClose && OpRecv in c'.io.outstanding
  {
    hide Dispatch, Submissions, ValidSession, React, Perform, Returns, Deliverable, HandleEvent;
    OutstandingAfter(c, e);
    DispatchSubmits(c.s, e);
  }

  predicate NoPacket(run: seq<Event>)
  {
    forall e :: e in run ==> !e.PacketReceived?
  }

  lemma {:induction false} ListensOn(cfg: Config, ring: seq<Slot>, run: seq<Event>, more: seq<Event>)
    requires ValidSetup(cfg, ring) && ValidRun(cfg, ring, run) && run != [] && ValidRun(cfg, ring, run + more) && NoPacket(more)
    requires var c := Exec(cfg, ring, run); c.s.ctl.shouldClose && OpRecv in c.io.outstanding
    ensures var c := Exec(cfg, ring, run + more); c.s.ctl.shouldClose && OpRecv in c.io.outstanding
    decreases |more|
  {
    hide ValidSetup, HandleEvent, ReportsClosed, Enabled, InitialCtx, ValidRun, Exec;
    if more == [] {
      assert run + more == run;
    } else {
      var all, before, e := run + more, more[..|more| - 1], more[|more| - 1];
      assert all[..|all| - 1] == run + before && all[|all| - 1] == e && e in more;
      LastStep(cfg, ring, all);
      ListensOn(cfg, ring, run, before);
      StaysListening(Exec(cfg, ring, run + before), e);
    }
  }

  lemma ReadFails(c: Ctx, e: Event)
    requires Enabled(c, e) && e.DataAvailable? && !e.success && Vigilant(c) && !c.s.ctl.shouldClose
    requires c.s.ctl.retransmission <= c.s.cfg.retries
    ensures HandleEvent(c, e).s.ctl.shouldClose && OpRecv in HandleEvent(c, e).io.outstanding
  {
    hide Submissions, ValidSession, Perform, Returns, Deliverable, Dispatch, HandleEvent;
    DispatchCloses(c.s, e);
    OnlyAReadMore(c, e);
    LeftListeningIff(c, e);
  }

  /** After a failed read, which ends a live session with an ERROR, nobody
      cancels its receive: as long as no packet arrives it does not report
      CLOSED, and its slot is not freed, with fewer than 256 operations under way. */
  lemma FailedReadWaits(cfg: Config, ring: seq<Slot>, run: seq<Event>, e: Event, more: seq<Event>)
    requires ValidSetup(cfg, ring) && ValidRun(cfg, ring, run) && run != [] && Cancels(cfg, ring, run)
    requires !Exec(cfg, ring, run).s.ctl.shouldClose
    requires e.DataAvailable? && !e.success && ValidRun(cfg, ring, run + [e]) && ValidRun(cfg, ring, run + [e] + more)
    requires NoPacket(more)
    ensures var c := Exec(cfg, ring, run + [e] + more);
            && c.s.ctl.shouldClose && OpRecv in c.io.outstanding
            && (ReportsClosed(c) ==> |c.io.outstanding| >= 256)
  {
    hide ValidSetup, HandleEvent, ReportsClosed, InitialCtx, ValidRun, Exec, Cancels, Rounds;
    LastStep(cfg, ring, run + [e]);
    assert (run + [e])[..|run + [e]| - 1] == run;
    var c := Exec(cfg, ring, run);
    AlwaysVigilant(cfg, ring, run);
    RoundsBounded(cfg, ring, run);
    ReadFails(c, e);
    ListensOn(cfg, ring, run + [e], more);
    PendingJobsCountOutstanding(cfg, ring, run + [e] + more);
  }

  // ------------------------------------------------------- measurements

  lemma NoSampleAgain(ps: seq<Packet>)
    ensures Sample !in SendAll(ps)
  {
  }

  lemma DispatchMeasures(s: Session, e: Event)
    requires ValidSession(s) && Deliverable(s, e) && (s.rtt.active ==> s.cfg.adaptive)
    ensures var s' := Dispatch(s, e).s;
            && (!s.rtt.active ==>
                  (s'.rtt.active <==> s.cfg.adaptive && (SendsBlock(s, e) || (e == Start(true) && OackPending(s)))))
            && (!s.rtt.active && s'.rtt.active ==> s'.rtt.block == if e.Start? then 0 else s.win.next)
            && (s.rtt.active && !e.Start? ==> (s'.rtt.active <==> !Retransmits(s, e) && Sample !in Dispatch(s, e).acts))
            && (s.rtt.active && s'.rtt.active && !e.Start? ==> s'.rtt == s.rtt)
  {
    hide IsInRange, Wrap16, SlotOf, Retransmission, ValidSession;
    if Retransmits(s, e) {
      NoSampleAgain(Retransmission(s));
    }
  }

  /** An adaptive session times the first block it sends while none is timed, or
      its OACK, and stops with a measurement or when it has to retransmit. */
  lemma MeasuresIff(s: Session, e: Event)
    requires ValidSession(s) && Deliverable(s, e) && (s.rtt.active ==> s.cfg.adaptive)
    ensures var s' := React(s, e).s;
            && (!s.rtt.active ==>
                  (s'.rtt.active <==> s.cfg.adaptive && (SendsBlock(s, e) || (e == Start(true) && OackPending(s)))))
            && (!s.rtt.active && s'.rtt.active ==> s'.rtt.block == if e.Start? then 0 else s.win.next)
            && (s.rtt.active && !e.Start? ==> (s'.rtt.active <==> !Retransmits(s, e) && Sample !in React(s, e).acts))
            && (s.rtt.active && s'.rtt.active && !e.Start? ==> s'.rtt == s.rtt)
  {
    hide Dispatch, ValidSession, ShouldFetch, Retransmits, SendsBlock;
    DispatchMeasures(s, e);
  }

  // ------------------------------------------------- timers, one by one

  /** Completions that carry nothing change nothing. */
  lemma QuietEvents(s: Session, e: Event)
    requires ValidSession(s) && Deliverable(s, e)
    requires e == PacketReceived(RecvCancelled) || e == Timeout(true) || e.TimeoutRemoved? || e.PacketReceivedRemoved?
             || (s.ctl.shouldClose && (e.Timeout? || e.PacketReceived?))
    ensures Dispatch(s, e) == Reaction(s, [])
  {
  }

  /** The event sends the first block of a window. */
  predicate OpensWindow(s: Session, e: Event)
  {
    SendsBlock(s, e) && s.win.begin == s.win.next
  }

  /** An acknowledgement of the read request is taken. */
  predicate TakesAck(s: Session, e: Event)
  {
    s.cfg.request == Read && Advances(s, e)
  }

  /** Timers that an event starts: for the OACK, for each round, for the first
      block of a window, and for the blocks that an acknowledgement leaves. */
  predicate StartsTimer(s: Session, e: Event)
  {
    || (e == Start(true) && OackPending(s))
    || Retransmits(s, e)
    || OpensWindow(s, e)
    || (TakesAck(s, e) && Wrap16(e.arrival.packet.block + 1) != s.win.next)
  }

  lemma StartTimers(s: Session, valid: bool)
    ensures var subs := Submissions(OnStart(s, valid).acts);
            subs[OpTimeout] == (if valid && OackPending(s) then 1 else 0) && subs[OpTimeoutRemove] == 0
  {
    hide Submissions;
    NoSubmissions();
    OneSubmission(OpRecv);
    NoSubmission(Oack);
    NoSubmission(Ack(0));
    OneSubmission(OpTimeout);
    SendsConcat([Submit(OpTimeout)], [Send(Oack)]);
    SendsConcat([Submit(OpTimeout)] + [Send(Oack)], [Submit(OpRecv)]);
    SendsConcat([Send(Ack(0))], [Submit(OpRecv)]);
    assert [Submit(OpTimeout)] + [Send(Oack)] + [Submit(OpRecv)] == [Submit(OpTimeout), Send(Oack), Submit(OpRecv)];
    assert [Send(Ack(0))] + [Submit(OpRecv)] == [Send(Ack(0)), Submit(OpRecv)];
  }

  lemma TimeoutTimers(s: Session)
    requires ValidSession(s)
    ensures var subs := Submissions(OnTimeout(s).acts);
            subs[OpTimeout] == (if s.ctl.retransmission < s.cfg.retries then 1 else 0) && subs[OpTimeoutRemove] == 0
  {
    hide Submissions, Retransmission;
    OneSubmission(OpTimeout);
    OneSubmission(OpRecvCancel);
    NoSubmission(Error);
    SendsOfSendAll(Retransmission(s));
    SendsConcat([Submit(OpTimeout)], SendAll(Retransmission(s)));
    SendsConcat([Submit(OpRecvCancel)], [Send(Error)]);
    assert [Submit(OpRecvCancel)] + [Send(Error)] == [Submit(OpRecvCancel), Send(Error)];
  }

  lemma SampleSubmitsNothing()
    ensures Submissions([Sample]) == multiset{}
  {
  }

  lemma AckTimers(s: Session, block: uint16)
    ensures var subs := Submissions(OnAck(s, block).acts);
            && subs[OpTimeoutRemove] == (if AckAccepted(s, block) then 1 else 0)
            && subs[OpTimeout] == (if AckAccepted(s, block) && Wrap16(block + 1) != s.win.next then 1 else 0)
  {
    hide Submissions, IsInRange, Wrap16;
    NoSubmissions();
    OneSubmission(OpTimeout);
    OneSubmission(OpTimeoutRemove);
    SampleSubmitsNothing();
    if AckAccepted(s, block) {
      var sample := if OnAck(s, block).acts[0].Sample? then [Sample] else [];
      var timer := if Wrap16(block + 1) != s.win.next then [Submit(OpTimeout)] else [];
      assert OnAck(s, block).acts == sample + [Submit(OpTimeoutRemove)] + timer;
      SendsConcat(sample + [Submit(OpTimeoutRemove)], timer);
      SendsConcat(sample, [Submit(OpTimeoutRemove)]);
    }
  }

  lemma PacketTimers(s: Session, p: Packet)
    requires !s.ctl.shouldClose
    ensures var subs, e := Submissions(OnPacket(s, p).acts), PacketReceived(FromPeer(p));
            && subs[OpTimeoutRemove] == (if TakesAck(s, e) then 1 else 0)
            && subs[OpTimeout] == (if StartsTimer(s, e) then 1 else 0)
  {
    hide Submissions, IsInRange, Wrap16, OnAck;
    NoSubmissions();
    NoSubmission(Error);
    if p.Data? {
      NoSubmission(Ack(p.block));
    }
    if p.Ack? {
      AckTimers(s, p.block);
    }
  }

  lemma ArrivalTimers(s: Session, a: Arrival)
    ensures var subs, e := Submissions(OnArrival(s, a).acts), PacketReceived(a);
            && subs[OpTimeoutRemove] == (if TakesAck(s, e) then 1 else 0)
            && subs[OpTimeout] == (if StartsTimer(s, e) then 1 else 0)
  {
    hide Submissions, OnPacket, AckAccepted, Wrap16;
    NoSubmissions();
    OneSubmission(OpRecv);
    if !s.ctl.shouldClose && a.FromPeer? {
      PacketTimers(s, a.packet);
      SendsConcat(OnPacket(s, a.packet).acts, [Submit(OpRecv)]);
    } else {
      assert [] + [Submit(OpRecv)] == [Submit(OpRecv)];
    }
  }

  lemma DataTimers(s: Session, success: bool, bytes: seq<byte>, atEof: bool)
    requires ValidSession(s) && |bytes| <= s.cfg.blockSize - s.src.size
    ensures var subs := Submissions(OnDataAvailable(s, success, bytes, atEof).acts);
            && subs[OpTimeoutRemove] == 0
            && subs[OpTimeout] == (if OpensWindow(s, DataAvailable(success, bytes, atEof)) then 1 else 0)
  {
    hide Submissions, Wrap16, SlotOf;
    NoSubmissions();
    NoSubmission(Error);
    OneSubmission(OpTimeout);
    if SendsBlock(s, DataAvailable(success, bytes, atEof)) {
      var acts := OnDataAvailable(s, success, bytes, atEof).acts;
      NoSubmission(acts[0].packet);
      SendsConcat([acts[0]], acts[1..]);
      assert acts == [acts[0]] + acts[1..];
      assert s.win.begin == s.win.next ==> acts[1..] == [Submit(OpTimeout)];
      assert s.win.begin != s.win.next ==> acts[1..] == [];
    }
  }

  /** The reaction submits the timers and removals that go with the event. */
  predicate TimersRight(s: Session, e: Event, acts: seq<Action>)
  {
    var subs := Submissions(acts);
    && subs[OpTimeout] == (if StartsTimer(s, e) then 1 else 0)
    && subs[OpTimeoutRemove] == (if TakesAck(s, e) then 1 else 0)
  }

  lemma QuietTimers(s: Session, e: Event)
    requires e.TimeoutRemoved? || e.PacketReceivedRemoved? || (e.Timeout? && (e.cancelled || s.ctl.shouldClose || !s.ctl.timerActive))
    ensures TimersRight(s, e, [])
  {
  }

  lemma StartCase(s: Session, valid: bool)
    ensures TimersRight(s, Start(valid), OnStart(s, valid).acts)
  {
    hide Submissions;
    StartTimers(s, valid);
  }

  lemma TimeoutCase(s: Session)
    requires ValidSession(s) && !s.ctl.shouldClose && s.ctl.timerActive
    ensures TimersRight(s, Timeout(false), OnTimeout(s).acts)
  {
    hide Submissions, OnTimeout;
    TimeoutTimers(s);
  }

  lemma SameOpening(s: Session, e: Event)
    ensures SendsBlock(s.(src := s.src.(fetching := false)), e) == SendsBlock(s, e)
  {
  }

  lemma DataCase(s: Session, e: Event)
    requires ValidSession(s) && Deliverable(s, e) && e.DataAvailable?
    ensures TimersRight(s, e, OnDataAvailable(s.(src := s.src.(fetching := false)), e.success, e.bytes, e.atEof).acts)
  {
    hide Submissions, OnDataAvailable;
    StillValid(s);
    SameOpening(s, e);
    DataTimers(s.(src := s.src.(fetching := false)), e.success, e.bytes, e.atEof);
  }

  lemma ArrivalCase(s: Session, a: Arrival)
    ensures TimersRight(s, PacketReceived(a), OnArrival(s, a).acts)
  {
    hide Submissions, OnArrival, StartsTimer, TakesAck;
    ArrivalTimers(s, a);
  }

  lemma DispatchTimers(s: Session, e: Event)
    requires ValidSession(s) && Deliverable(s, e)
    ensures TimersRight(s, e, Dispatch(s, e).acts)
  {
    hide TimersRight, OnStart, OnTimeout, OnArrival, OnDataAvailable, ValidSession;
    match e
    case Start(valid) => StartCase(s, valid);
    case Timeout(cancelled) =>
      if !cancelled && !s.ctl.shouldClose && s.ctl.timerActive {
        TimeoutCase(s);
      } else {
        QuietTimers(s, e);
      }
    case PacketReceived(a) => ArrivalCase(s, a);
    case DataAvailable(_, _, _) => DataCase(s, e);
    case _ => QuietTimers(s, e);
  }

  /** Each event starts one timer or none, and asks for the removal of one if and
      only if it takes an acknowledgement. */
  lemma TimersOf(s: Session, e: Event)
    requires ValidSession(s) && Deliverable(s, e)
    ensures TimersRight(s, e, React(s, e).acts)
  {
    hide Submissions, Dispatch, ValidSession, ShouldFetch, StartsTimer, TakesAck;
    OneSubmission(OpRead);
    SendsConcat(Dispatch(s, e).acts, [Submit(OpRead)]);
    DispatchTimers(s, e);
  }

  /** Timers started and removals asked for, in the whole run. */
  function TimersStarted(cfg: Config, ring: seq<Slot>, run: seq<Event>): (n: nat)
    requires ValidSetup(cfg, ring) && ValidRun(cfg, ring, run)
  {
    if run == [] then 0
    else
      var before := run[..|run| - 1];
      TimersStarted(cfg, ring, before) + if StartsTimer(Exec(cfg, ring, before).s, run[|run| - 1]) then 1 else 0
  }

  function AcksTaken(cfg: Config, ring: seq<Slot>, run: seq<Event>): (n: nat)
    requires ValidSetup(cfg, ring) && ValidRun(cfg, ring, run)
  {
    if run == [] then 0
    else
      var before := run[..|run| - 1];
      AcksTaken(cfg, ring, before) + if TakesAck(Exec(cfg, ring, before).s, run[|run| - 1]) then 1 else 0
  }

  function Timeouts(run: seq<Event>): (n: nat)
  {
    if run == [] then 0 else Timeouts(run[..|run| - 1]) + if run[|run| - 1].Timeout? then 1 else 0
  }

  function Removals(run: seq<Event>): (n: nat)
  {
    if run == [] then 0 else Removals(run[..|run| - 1]) + if run[|run| - 1].TimeoutRemoved? then 1 else 0
  }

  lemma TimersAfter(c: Ctx, e: Event)
    requires Enabled(c, e)
    ensures var out := HandleEvent(c, e).io.outstanding;
            && out[OpTimeout] + (if e.Timeout? then 1 else 0) ==
                 c.io.outstanding[OpTimeout] + if StartsTimer(c.s, e) then 1 else 0
    ensures var out := HandleEvent(c, e).io.outstanding;
            && out[OpTimeoutRemove] + (if e.TimeoutRemoved? then 1 else 0) ==
                 c.io.outstanding[OpTimeoutRemove] + if TakesAck(c.s, e) then 1 else 0
  {
    hide React, Submissions, ValidSession, Perform, StartsTimer, TakesAck, Returns;
    PerformEffect(Complete(c.io, e), React(c.s, e).acts);
    TimersOf(c.s, e);
    assert Completed(e)[OpTimeout] == if e.Timeout? then 1 else 0;
    assert Completed(e)[OpTimeoutRemove] == if e.TimeoutRemoved? then 1 else 0;
  }

  /** No timer is lost or invented: in every run those under way are those
      started and not completed, and so are the removals, one for each
      acknowledgement taken. */
  lemma {:induction false} TimersBalance(cfg: Config, ring: seq<Slot>, run: seq<Event>)
    requires ValidSetup(cfg, ring) && ValidRun(cfg, ring, run)
    ensures var out := Exec(cfg, ring, run).io.outstanding;
            && out[OpTimeout] + Timeouts(run) == TimersStarted(cfg, ring, run)
            && out[OpTimeoutRemove] + Removals(run) == AcksTaken(cfg, ring, run)
  {
    hide ValidSetup, HandleEvent, ReportsClosed, StartsTimer, TakesAck;
    if run == [] {
      StartsClean(cfg, ring);
    } else {
      LastStep(cfg, ring, run);
      var before, e := run[..|run| - 1], run[|run| - 1];
      TimersBalance(cfg, ring, before);
      TimersAfter(Exec(cfg, ring, before), e);
    }
    hide Enabled;
  }
}
