/**
 Every life of every session, read or write, whatever events reach it.
 */
module SessionRuns {
  import opened BlockNumbers
  import opened FileBlocks
  import opened Packets
  import opened Session
  import opened SessionJobs

  predicate ValidSetup(cfg: Config, ring: seq<Slot>)
  {
    ValidSession(InitialSession(cfg, ring))
  }

  /** The start event comes first and once; afterwards the dispatcher delivers
      completions of outstanding operations, until the session reports CLOSED or
      a handler does not return. */
  predicate MayHandle(c: Ctx, e: Event, isFirst: bool)
  {
    && Enabled(c, e)
    && (e.Start? <==> isFirst)
    && (!isFirst ==> !ReportsClosed(c))
  }

  predicate ValidRun(cfg: Config, ring: seq<Slot>, run: seq<Event>)
    requires ValidSetup(cfg, ring)
    decreases |run|, 0
  {
    run == [] || (ValidRun(cfg, ring, run[..|run| - 1])
                  && MayHandle(Exec(cfg, ring, run[..|run| - 1]), run[|run| - 1], |run| == 1))
  }

  function Exec(cfg: Config, ring: seq<Slot>, run: seq<Event>): (c: Ctx)
    requires ValidSetup(cfg, ring) && ValidRun(cfg, ring, run)
    decreases |run|, 1
  {
    if run == [] then InitialCtx(cfg, ring)
    else HandleEvent(Exec(cfg, ring, run[..|run| - 1]), run[|run| - 1])
  }

  /** The last event of a run is handled in the state the others led to. */
  lemma LastStep(cfg: Config, ring: seq<Slot>, run: seq<Event>)
    requires ValidSetup(cfg, ring) && ValidRun(cfg, ring, run) && run != []
    ensures ValidRun(cfg, ring, run[..|run| - 1])
    ensures MayHandle(Exec(cfg, ring, run[..|run| - 1]), run[|run| - 1], |run| == 1)
    ensures Exec(cfg, ring, run) == HandleEvent(Exec(cfg, ring, run[..|run| - 1]), run[|run| - 1])
  {
    hide HandleEvent, ValidSetup, MayHandle;
  }

  /** `pending_jobs` is the number of outstanding operations modulo 256 after
      any sequence of events, so a session reports CLOSED exactly when it is
      closing and that number is a multiple of 256. */
  lemma {:induction false} PendingJobsCountOutstanding(cfg: Config, ring: seq<Slot>, run: seq<Event>)
    requires ValidSetup(cfg, ring) && ValidRun(cfg, ring, run)
    ensures var c := Exec(cfg, ring, run);
            && JobsCounted(c.io)
            && c.s.cfg == cfg
            && (ReportsClosed(c) <==> c.s.ctl.shouldClose && |c.io.outstanding| % 0x100 == 0)
            && (ReportsClosed(c) && |c.io.outstanding| <= 255 ==> c.io.outstanding == multiset{})
  {
    if run != [] {
      var before := run[..|run| - 1];
      PendingJobsCountOutstanding(cfg, ring, before);
      HandleEventKeeps(Exec(cfg, ring, before), run[|run| - 1]);
    }
    ClosedIff(Exec(cfg, ring, run));
  }

  // --------------------------------------------------- retransmission budget

  /** The packet advances the transfer. */
  predicate Advances(s: Session, e: Event)
  {
    && e.PacketReceived? && e.arrival.FromPeer? && !s.ctl.shouldClose
    && (var p := e.arrival.packet;
        || (s.cfg.request == Read && p.Ack? && AckAccepted(s, p.block))
        || (s.cfg.request == Write && p.Data? && (p.block == s.sink.expected || (OackPending(s) && p.block == 1))))
  }

  lemma RoundActs(s: Session)
    requires ValidSession(s) && Retransmits(s, Timeout(false))
    ensures Dispatch(s, Timeout(false)).acts == [Submit(OpTimeout)] + SendAll(Retransmission(s))
  {
    hide Retransmission, SendAll, ValidSession;
  }

  lemma SomethingResent(s: Session)
    requires ValidSession(s) && SomethingToResend(s)
    ensures Retransmission(s) != []
  {
    if s.win.begin != s.win.next {
      LoopEndsIff(s.win.begin, s.win.next);
      var n: nat :| EndsAfter(s.win.begin, s.win.next, n);
    }
    hide StoredPacket;
  }

  /** What a round of retransmission sends: at least one packet, and nothing
      but the OACK, the last acknowledgement, or the blocks of the window. */
  lemma RoundSends(s: Session)
    requires ValidSession(s) && Retransmits(s, Timeout(false)) && Returns(s, Timeout(false))
    ensures Sends(React(s, Timeout(false)).acts) == Retransmission(s) != []
  {
    hide Retransmission, Dispatch, ShouldFetch, Sends, SendAll, ValidSession;
    var d := Dispatch(s, Timeout(false));
    var resent := SendAll(Retransmission(s));
    RoundActs(s);
    SendsConcat([Submit(OpTimeout)], resent);
    SendsOfSendAll(Retransmission(s));
    SendsConcat(d.acts, [Submit(OpRead)]);
    SubmitsOnly(OpTimeout);
    SubmitsOnly(OpRead);
    SomethingResent(s);
  }

  /** Rounds of retransmission since the transfer last advanced. */
  function Rounds(cfg: Config, ring: seq<Slot>, run: seq<Event>): (n: nat)
    requires ValidSetup(cfg, ring) && ValidRun(cfg, ring, run)
  {
    if run == [] then 0
    else
      var c, e := Exec(cfg, ring, run[..|run| - 1]), run[|run| - 1];
      if Advances(c.s, e) then 0
      else Rounds(cfg, ring, run[..|run| - 1]) + if Retransmits(c.s, e) then 1 else 0
  }

  lemma ArrivalCounter(s: Session, a: Arrival)
    ensures OnArrival(s, a).s.ctl.retransmission ==
              if Advances(s, PacketReceived(a)) then 0 else s.ctl.retransmission
  {
    hide IsInRange, Wrap16, AckAccepted;
  }

  lemma NoAdvance(s: Session, e: Event)
    requires !e.PacketReceived?
    ensures !Advances(s, e)
  {
  }

  lemma DispatchCounter(s: Session, e: Event)
    requires ValidSession(s) && Deliverable(s, e) && s.ctl.retransmission <= s.cfg.retries
    ensures Dispatch(s, e).s.ctl.retransmission ==
              if Advances(s, e) then 0 else s.ctl.retransmission + if Retransmits(s, e) then 1 else 0
  {
    hide Retransmission, Advances, OnArrival, SlotOf;
    if e.PacketReceived? {
      ArrivalCounter(s, e.arrival);
    } else {
      NoAdvance(s, e);
    }
  }

  lemma RetransmissionCounter(s: Session, e: Event)
    requires ValidSession(s) && Deliverable(s, e) && s.ctl.retransmission <= s.cfg.retries
    ensures React(s, e).s.ctl.retransmission ==
              if Advances(s, e) then 0 else s.ctl.retransmission + if Retransmits(s, e) then 1 else 0
  {
    DispatchCounter(s, e);
    hide Dispatch, Advances, Retransmits, ShouldFetch;
  }

  lemma FreshCounter(cfg: Config, ring: seq<Slot>)
    requires ValidSetup(cfg, ring)
    ensures ValidRun(cfg, ring, []) && Exec(cfg, ring, []).s.ctl.retransmission == 0 && Exec(cfg, ring, []).s.cfg == cfg
  {
  }

  lemma RoundHasBudget(s: Session, e: Event)
    ensures Retransmits(s, e) ==> s.ctl.retransmission < s.cfg.retries
  {
  }

  /** The counter of a session is the number of rounds of retransmission since
      the transfer last advanced, and at most `retries` (section 6 of RFC 7440).
      A run ends before a time-out whose round would not. */
  lemma {:induction false} RoundsBounded(cfg: Config, ring: seq<Slot>, run: seq<Event>)
    requires ValidSetup(cfg, ring) && ValidRun(cfg, ring, run)
    ensures var s := Exec(cfg, ring, run).s;
            Rounds(cfg, ring, run) == s.ctl.retransmission <= s.cfg.retries == cfg.retries
  {
    hide React, ValidSession, Deliverable, Retransmits, Advances, ValidRun, Exec, ValidSetup, ReportsClosed, Returns, Complete, Perform;
    if run == [] {
      FreshCounter(cfg, ring);
    } else {
      LastStep(cfg, ring, run);
      var before := run[..|run| - 1];
      RoundsBounded(cfg, ring, before);
      var s, e := Exec(cfg, ring, before).s, run[|run| - 1];
      RetransmissionCounter(s, e);
      SessionJobs.ReactValid(s, e);
      RoundHasBudget(s, e);
    }
  }

  lemma SpentCloses(s: Session)
    requires ValidSession(s) && !s.ctl.shouldClose && s.ctl.timerActive && s.ctl.retransmission >= s.cfg.retries
    ensures var r := React(s, Timeout(false)); r.s.ctl.shouldClose && Sends(r.acts) == [Error]
  {
    SendsConcat([Submit(OpRecvCancel)], [Send(Error)]);
    assert [Submit(OpRecvCancel)] + [Send(Error)] == [Submit(OpRecvCancel), Send(Error)];
    assert Sends([Submit(OpRecvCancel)]) == [] && Sends([Send(Error)]) == [Error];
  }

  /** A live session gives up on a time-out if and only if there were `retries`
      rounds since the transfer last advanced. */
  lemma GivesUpIff(cfg: Config, ring: seq<Slot>, run: seq<Event>)
    requires ValidSetup(cfg, ring) && ValidRun(cfg, ring, run)
    requires var s := Exec(cfg, ring, run).s; ValidSession(s) && !s.ctl.shouldClose && s.ctl.timerActive
    ensures React(Exec(cfg, ring, run).s, Timeout(false)).s.ctl.shouldClose <==> Rounds(cfg, ring, run) == cfg.retries
  {
    RoundsBounded(cfg, ring, run);
    hide Rounds, Exec, ValidRun, ValidSetup, Retransmission;
  }

  lemma CompletingSendsNothing(io: Io, e: Event)
    ensures Complete(io, e).sent == io.sent
  {
  }

  /** When the budget is spent, the next time-out of a live session sends an
      ERROR and closes it. */
  lemma BudgetSpentCloses(cfg: Config, ring: seq<Slot>, run: seq<Event>)
    requires ValidSetup(cfg, ring) && ValidRun(cfg, ring, run + [Timeout(false)]) && ValidRun(cfg, ring, run)
    requires Rounds(cfg, ring, run) == cfg.retries
    requires !Exec(cfg, ring, run).s.ctl.shouldClose && Exec(cfg, ring, run).s.ctl.timerActive
    ensures var c := Exec(cfg, ring, run);
            var c' := Exec(cfg, ring, run + [Timeout(false)]);
            c'.s.ctl.shouldClose && c'.io.sent == c.io.sent + [Error]
  {
    hide Rounds, React, ValidSession, Complete, Perform, Sends, Deliverable;
    RoundsBounded(cfg, ring, run);
    assert (run + [Timeout(false)])[..|run + [Timeout(false)]| - 1] == run;
    var c := Exec(cfg, ring, run);
    SpentCloses(c.s);
    PerformEffect(Complete(c.io, Timeout(false)), React(c.s, Timeout(false)).acts);
    CompletingSendsNothing(c.io, Timeout(false));
  }
}
