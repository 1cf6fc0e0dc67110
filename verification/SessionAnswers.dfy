/**
 What a session answers, in every life of it: the first packet, the
 acknowledgement of every block it takes, and what a time-out repeats.
 */
module SessionAnswers {
  import opened BlockNumbers
  import opened FileBlocks
  import opened Packets
  import opened Session
  import opened SessionJobs
  import opened SessionRuns

  lemma SentOf(c: Ctx, e: Event)
    requires Enabled(c, e)
    ensures HandleEvent(c, e).io.sent == c.io.sent + Sends(React(c.s, e).acts)
  {
    PerformEffect(Complete(c.io, e), React(c.s, e).acts);
    hide React, Perform, Sends;
  }

  // ------------------------------------------------------ the first packet

  lemma OneSend(p: Packet)
    ensures Sends([Send(p)]) == [p]
  {
  }

  lemma StartSends(s: Session, valid: bool)
    ensures Sends(OnStart(s, valid).acts) ==
              if !valid then [] else if OackPending(s) then [Oack] else if s.cfg.request == Write then [Ack(0)] else []
  {
    hide Sends;
    EmptySends();
    OneSend(Oack);
    OneSend(Ack(0));
    SubmitsOnly(OpRecv);
    SubmitsOnly(OpTimeout);
    SendsConcat([Submit(OpTimeout)], [Send(Oack)]);
    SendsConcat([Submit(OpTimeout)] + [Send(Oack)], [Submit(OpRecv)]);
    SendsConcat([Send(Ack(0))], [Submit(OpRecv)]);
    assert [Submit(OpTimeout)] + [Send(Oack)] + [Submit(OpRecv)] == [Submit(OpTimeout), Send(Oack), Submit(OpRecv)];
    assert [Send(Ack(0))] + [Submit(OpRecv)] == [Send(Ack(0)), Submit(OpRecv)];
  }

  /** How a request is answered when the session starts. */
  lemma StartAnswers(cfg: Config, ring: seq<Slot>, valid: bool)
    requires ValidSetup(cfg, ring)
    ensures Enabled(InitialCtx(cfg, ring), Start(valid))
    ensures var sent := HandleEvent(InitialCtx(cfg, ring), Start(valid)).io.sent;
            sent == if !valid then []
                    else if cfg.optionsRequired then [Oack]
                    else if cfg.request == Write then [Ack(0)]
                    else []
  {
    hide Perform, Sends, OnStart, ShouldFetch, HandleEvent;
    var c := InitialCtx(cfg, ring);
    SentOf(c, Start(valid));
    StartSends(c.s, valid);
    SubmitsOnly(OpRead);
    SendsConcat(OnStart(c.s, valid).acts, [Submit(OpRead)]);
  }

  /** The first packet of a session that was started with a valid request is the
      OACK if options are required, and otherwise acknowledgement 0 of a write
      request; a read request without options has no answer of its own. */
  lemma {:induction false} FirstPacket(cfg: Config, ring: seq<Slot>, run: seq<Event>)
    requires ValidSetup(cfg, ring) && ValidRun(cfg, ring, run) && run != [] && run[0] == Start(true)
    ensures var sent := Exec(cfg, ring, run).io.sent;
            && (cfg.optionsRequired ==> sent != [] && sent[0] == Oack)
            && (!cfg.optionsRequired && cfg.request == Write ==> sent != [] && sent[0] == Ack(0))
            && (!cfg.optionsRequired && cfg.request == Read && |run| == 1 ==> sent == [])
  {
    hide ValidSetup, HandleEvent, Sends, ReportsClosed, Enabled, InitialCtx;
    LastStep(cfg, ring, run);
    var before := run[..|run| - 1];
    if before == [] {
      StartAnswers(cfg, ring, true);
    } else {
      FirstPacket(cfg, ring, before);
      SentOf(Exec(cfg, ring, before), run[|run| - 1]);
    }
    hide ValidRun;
  }

  // --------------------------------------------------------- write requests

  /** Payloads of the DATA packets that were taken, in their order. */
  function Taken(cfg: Config, ring: seq<Slot>, run: seq<Event>): (ps: seq<seq<byte>>)
    requires ValidSetup(cfg, ring) && ValidRun(cfg, ring, run)
  {
    if run == [] then []
    else
      var before, e := run[..|run| - 1], run[|run| - 1];
      Taken(cfg, ring, before) +
      if cfg.request == Write && Advances(Exec(cfg, ring, before).s, e) && e.arrival.packet.Data?
      then [e.arrival.packet.payload] else []
  }

  /** Rounds of retransmission in the whole run. */
  function AllRounds(cfg: Config, ring: seq<Slot>, run: seq<Event>): (n: nat)
    requires ValidSetup(cfg, ring) && ValidRun(cfg, ring, run)
  {
    if run == [] then 0
    else
      var before := run[..|run| - 1];
      AllRounds(cfg, ring, before) + if Retransmits(Exec(cfg, ring, before).s, run[|run| - 1]) then 1 else 0
  }

  /** The numbers of a write session after `n` payloads were taken. */
  predicate Numbered(s: Session, n: nat)
  {
    s.sink.expected == Wrap16(n + 1) && (OackPending(s) ==> n == 0)
  }

  /** What it waits for, while it is live, is the answer to the last packet it sent. */
  predicate LastIs(c: Ctx, n: nat, rounds: nat)
  {
    !c.s.ctl.shouldClose ==>
      && |c.io.sent| == 1 + n + rounds
      && c.io.sent[|c.io.sent| - 1] == if OackPending(c.s) then Oack else Ack(Wrap16(n))
  }

  predicate WriteInv(c: Ctx, taken: seq<seq<byte>>, rounds: nat)
  {
    && c.s.cfg.request == Write
    && Numbered(c.s, |taken|)
    && c.s.sink.written == Joined(taken)
    && OpRead !in c.io.outstanding
    && (!c.s.ctl.shouldClose ==> (c.s.ctl.timerActive <==> c.s.cfg.optionsRequired))
    && LastIs(c, |taken|, rounds)
  }

  /** The packets an event makes a write session send. */
  function WriteSends(s: Session, e: Event): (ps: seq<Packet>)
  {
    if s.ctl.shouldClose then []
    else if Retransmits(s, e) then [if OackPending(s) then Oack else Ack(Wrap16(s.sink.expected as int - 1))]
    else if e == Timeout(false) && s.ctl.timerActive then [Error]
    else if e.PacketReceived? && e.arrival.FromPeer? && e.arrival.packet.Data? then
      if Advances(s, e) then [Ack(e.arrival.packet.block)] else []
    else if e.PacketReceived? && e.arrival.FromPeer? && !e.arrival.packet.Error? then [Error]
    else []
  }

  /** The session after a packet of the peer. */
  predicate SinkAfter(s: Session, e: Event, s': Session)
  {
    && s'.cfg == s.cfg
    && s'.sink == (if Advances(s, e) && e.arrival.packet.Data?
                   then Sink(Wrap16(s.sink.expected + 1), s.sink.written + e.arrival.packet.payload) else s.sink)
    && (s.ctl.shouldClose ==> s'.ctl.shouldClose)
    && s'.ctl.timerActive == s.ctl.timerActive
    && (OackPending(s') <==> OackPending(s) && !Advances(s, e))
    && (WriteSends(s, e) == [Error] ==> s'.ctl.shouldClose)
  }

  lemma WriteTimeout(s: Session)
    requires ValidSession(s) && s.cfg.request == Write && !s.ctl.shouldClose && s.ctl.timerActive
    ensures var d := OnTimeout(s);
            Sends(d.acts) == WriteSends(s, Timeout(false)) && SinkAfter(s, Timeout(false), d.s) && Submit(OpRead) !in d.acts
  {
    hide Sends, Wrap16, ValidSession;
    SubmitsOnly(OpTimeout);
    SubmitsOnly(OpRecvCancel);
    OneSend(Error);
    SendsConcat([Submit(OpRecvCancel)], [Send(Error)]);
    assert [Submit(OpRecvCancel)] + [Send(Error)] == [Submit(OpRecvCancel), Send(Error)];
    SendsConcat([Submit(OpTimeout)], SendAll(Retransmission(s)));
    SendsOfSendAll(Retransmission(s));
  }

  lemma WritePacket(s: Session, p: Packet)
    requires s.cfg.request == Write && !s.ctl.shouldClose && (OackPending(s) ==> s.sink.expected == 1)
    ensures var e, d := PacketReceived(FromPeer(p)), OnPacket(s, p);
            Sends(d.acts) == WriteSends(s, e) && SinkAfter(s, e, d.s) && Submit(OpRead) !in d.acts
  {
    hide Sends, Wrap16;
    EmptySends();
    OneSend(Error);
    if p.Data? {
      OneSend(Ack(p.block));
    }
  }

  lemma WriteArrival(s: Session, a: Arrival)
    requires s.cfg.request == Write && (OackPending(s) ==> s.sink.expected == 1)
    ensures var e, d := PacketReceived(a), OnArrival(s, a);
            Sends(d.acts) == WriteSends(s, e) && SinkAfter(s, e, d.s) && Submit(OpRead) !in d.acts
  {
    hide Sends, OnPacket, Wrap16;
    EmptySends();
    SubmitsOnly(OpRecv);
    if !s.ctl.shouldClose && a.FromPeer? {
      WritePacket(s, a.packet);
      SendsConcat(OnPacket(s, a.packet).acts, [Submit(OpRecv)]);
    } else {
      assert [] + [Submit(OpRecv)] == [Submit(OpRecv)];
    }
  }

  lemma NothingHappens(s: Session, e: Event)
    requires e.TimeoutRemoved? || e.PacketReceivedRemoved? || e == Timeout(true)
             || (e.Timeout? && (s.ctl.shouldClose || !s.ctl.timerActive))
    ensures WriteSends(s, e) == [] && Sends([]) == [] && SinkAfter(s, e, s)
  {
  }

  lemma WriteReaction(s: Session, e: Event)
    requires ValidSession(s) && s.cfg.request == Write && !e.Start? && !e.DataAvailable?
    requires OackPending(s) ==> s.sink.expected == 1
    ensures var r := React(s, e);
            Sends(r.acts) == WriteSends(s, e) && SinkAfter(s, e, r.s) && Submit(OpRead) !in r.acts
  {
    hide Sends, Wrap16, ValidSession, OnArrival, OnTimeout, WriteSends, IsInRange;
    if e.PacketReceived? {
      WriteArrival(s, e.arrival);
    } else if e == Timeout(false) && !s.ctl.shouldClose && s.ctl.timerActive {
      WriteTimeout(s);
    } else {
      NothingHappens(s, e);
    }
  }

  /** The number of the packet that is taken next. */
  lemma TakesNext(s: Session, e: Event, n: nat)
    requires s.cfg.request == Write && Numbered(s, n)
    ensures Advances(s, e) && s.cfg.request == Write <==>
              && e.PacketReceived? && e.arrival.FromPeer? && !s.ctl.shouldClose
              && e.arrival.packet.Data? && e.arrival.packet.block == Wrap16(n + 1)
  {
    if OackPending(s) {
      SmallNumber(1);
    }
    hide Wrap16;
  }

  lemma JoinedOne(ps: seq<seq<byte>>, more: seq<seq<byte>>)
    requires |more| <= 1
    ensures Joined(ps + more) == Joined(ps) + if more == [] then [] else more[0]
  {
    if more == [] {
      assert ps + more == ps;
    } else {
      assert (ps + more)[..|ps|] == ps;
    }
  }

  lemma NoReadCompletes(c: Ctx, e: Event)
    requires Completed(e) <= c.io.outstanding && OpRead !in c.io.outstanding
    ensures !e.DataAvailable? && OpRead !in Complete(c.io, e).outstanding
  {
    assert Completed(e)[OpRead] == if e.DataAvailable? then 1 else 0;
  }

  lemma NumberBefore(n: nat)
    ensures Wrap16(Wrap16(n + 1) as int - 1) == Wrap16(n)
  {
  }

  /** What a live session sends, if anything, ends with the number it has reached. */
  lemma LastSent(s: Session, e: Event, n: nat)
    requires s.cfg.request == Write && Numbered(s, n)
    ensures var ps := WriteSends(s, e);
            && |ps| <= 1
            && (ps != [] && ps != [Error] ==>
                  ps == [if OackPending(s) && !Advances(s, e) then Oack
                         else Ack(Wrap16(if Advances(s, e) && e.arrival.packet.Data? then n + 1 else n))])
            && (Advances(s, e) && e.arrival.packet.Data? ==> ps != [] && !Retransmits(s, e))
            && (Retransmits(s, e) ==> ps != [])
            && (ps != [] && ps != [Error] ==> Retransmits(s, e) || (Advances(s, e) && e.arrival.packet.Data?))
            && (Retransmits(s, e) || (Advances(s, e) && e.arrival.packet.Data?) ==> ps != [Error])
  {
    hide Wrap16;
    TakesNext(s, e, n);
    NumberBefore(n);
  }

  predicate Takes(s: Session, e: Event)
  {
    Advances(s, e) && e.arrival.packet.Data?
  }

  lemma StaysOpen(s: Session, e: Event)
    requires ValidSession(s) && Deliverable(s, e) && s.cfg.request == Write && !e.Start? && !e.DataAvailable?
    ensures s.ctl.shouldClose ==> React(s, e).s.ctl.shouldClose && WriteSends(s, e) == []
  {
    hide ValidSession, Wrap16;
  }

  lemma LastStays(c: Ctx, e: Event, n: nat, rounds: nat)
    requires Enabled(c, e) && !e.Start? && !e.DataAvailable?
    requires c.s.cfg.request == Write && Numbered(c.s, n) && LastIs(c, n, rounds)
    ensures LastIs(HandleEvent(c, e), if Takes(c.s, e) then n + 1 else n, rounds + if Retransmits(c.s, e) then 1 else 0)
  {
    hide React, Sends, Perform, ValidSession, Advances, WriteSends, OackPending, Retransmits, Wrap16, Complete, Deliverable, Completed,
      Returns;
    SmallNumber(1);
    WriteReaction(c.s, e);
    SentOf(c, e);
    LastSent(c.s, e, n);
    TakesNext(c.s, e, n);
    StaysOpen(c.s, e);
  }

  lemma WriteStep(c: Ctx, e: Event, taken: seq<seq<byte>>, rounds: nat)
    requires Enabled(c, e) && WriteInv(c, taken, rounds) && !e.Start?
    ensures !e.DataAvailable?
    ensures var more := if Takes(c.s, e) then [e.arrival.packet.payload] else [];
            WriteInv(HandleEvent(c, e), taken + more, rounds + if Retransmits(c.s, e) then 1 else 0)
  {
    hide Wrap16, React, Sends, Perform, ValidSession, Advances, WriteSends, OackPending, Submissions, LastIs, Retransmits;
    NoReadCompletes(c, e);
    SmallNumber(1);
    LastStays(c, e, |taken|, rounds);
    WriteReaction(c.s, e);
    TakesNext(c.s, e, |taken|);
    NextNumber(|taken| + 1);
    PerformEffect(Complete(c.io, e), React(c.s, e).acts);
    SubmissionsOf(React(c.s, e).acts, OpRead);
    JoinedOne(taken, if Takes(c.s, e) then [e.arrival.packet.payload] else []);
  }

  lemma StartsWriting(cfg: Config, ring: seq<Slot>, valid: bool)
    requires ValidSetup(cfg, ring) && cfg.request == Write
    ensures Enabled(InitialCtx(cfg, ring), Start(valid))
    ensures WriteInv(HandleEvent(InitialCtx(cfg, ring), Start(valid)), [], 0)
  {
    hide Perform, Sends, Wrap16, IsInRange, Submissions;
    var c := InitialCtx(cfg, ring);
    StartAnswers(cfg, ring, valid);
    SmallNumber(0);
    SmallNumber(1);
    PerformEffect(Complete(c.io, Start(valid)), React(c.s, Start(valid)).acts);
    SubmissionsOf(React(c.s, Start(valid)).acts, OpRead);
  }

  lemma StartTakesNothing(cfg: Config, ring: seq<Slot>, run: seq<Event>)
    requires ValidSetup(cfg, ring) && ValidRun(cfg, ring, run) && |run| == 1
    ensures Taken(cfg, ring, run) == [] && AllRounds(cfg, ring, run) == 0 && Exec(cfg, ring, []) == InitialCtx(cfg, ring) && run[0].Start?
  {
    hide HandleEvent, ValidSetup, Enabled;
    assert run[..0] == [];
  }

  lemma {:induction false} WriteRun(cfg: Config, ring: seq<Slot>, run: seq<Event>)
    requires ValidSetup(cfg, ring) && ValidRun(cfg, ring, run) && run != [] && cfg.request == Write
    ensures WriteInv(Exec(cfg, ring, run), Taken(cfg, ring, run), AllRounds(cfg, ring, run))
    ensures Exec(cfg, ring, run).s.cfg == cfg
  {
    hide ValidSetup, HandleEvent, Sends, ReportsClosed, Enabled, InitialCtx, WriteInv, Advances, Retransmits;
    LastStep(cfg, ring, run);
    var before, e := run[..|run| - 1], run[|run| - 1];
    PendingJobsCountOutstanding(cfg, ring, run);
    if before == [] {
      StartsWriting(cfg, ring, e.valid);
      StartTakesNothing(cfg, ring, run);
    } else {
      WriteRun(cfg, ring, before);
      WriteStep(Exec(cfg, ring, before), e, Taken(cfg, ring, before), AllRounds(cfg, ring, before));
    }
    hide ValidRun;
  }

  // ---------------------------------------------------------------- results

  /** A write session has written what it has taken, and takes a DATA packet if
      and only if its number is one more than the count of those, modulo 65536. */
  lemma TakesInOrder(cfg: Config, ring: seq<Slot>, run: seq<Event>, e: Event)
    requires ValidSetup(cfg, ring) && ValidRun(cfg, ring, run) && run != [] && cfg.request == Write
    ensures var s, n := Exec(cfg, ring, run).s, |Taken(cfg, ring, run)|;
            && s.sink.written == Joined(Taken(cfg, ring, run))
            && (Advances(s, e) <==>
                  && e.PacketReceived? && e.arrival.FromPeer? && !s.ctl.shouldClose
                  && e.arrival.packet.Data? && e.arrival.packet.block == Wrap16(n + 1))
  {
    WriteRun(cfg, ring, run);
    TakesNext(Exec(cfg, ring, run).s, e, |Taken(cfg, ring, run)|);
    hide Exec, Taken, ValidRun, Wrap16;
  }

  /** The timer of a live write session runs from its OACK to the end; without an
      OACK there is none. */
  lemma WriteTimerRuns(cfg: Config, ring: seq<Slot>, run: seq<Event>)
    requires ValidSetup(cfg, ring) && ValidRun(cfg, ring, run) && run != [] && cfg.request == Write
    ensures var s := Exec(cfg, ring, run).s; !s.ctl.shouldClose ==> (s.ctl.timerActive <==> cfg.optionsRequired)
  {
    WriteRun(cfg, ring, run);
    hide Exec, Taken, AllRounds, ValidRun, LastIs, Numbered;
  }

  lemma RepeatsLast(c: Ctx, taken: seq<seq<byte>>, rounds: nat)
    requires WriteInv(c, taken, rounds) && !c.s.ctl.shouldClose
    ensures |c.io.sent| == 1 + |taken| + rounds
    ensures c.io.sent[|c.io.sent| - 1] == if OackPending(c.s) then Oack else Ack(|taken| % 0x1_0000)
    ensures OackPending(c.s) ==> |taken| == 0
    ensures ValidSession(c.s) && Retransmits(c.s, Timeout(false)) ==>
              Sends(React(c.s, Timeout(false)).acts) == [c.io.sent[|c.io.sent| - 1]]
  {
    hide React, Sends, ValidSession;
    if ValidSession(c.s) && Retransmits(c.s, Timeout(false)) {
      SmallNumber(1);
      WriteReaction(c.s, Timeout(false));
      NumberBefore(|taken|);
    }
  }

  /** The last packet a live write session has sent is its OACK, as long as that
      is not acknowledged, and then the acknowledgement whose number is the
      count of the DATA packets it has taken, modulo 65536. A time-out within
      the budget sends exactly that packet again; and nothing is sent but one
      packet at the start, for each DATA packet taken, and in each round. */
  lemma TimeoutRepeatsLastAnswer(cfg: Config, ring: seq<Slot>, run: seq<Event>)
    requires ValidSetup(cfg, ring) && ValidRun(cfg, ring, run) && run != [] && cfg.request == Write
    requires !Exec(cfg, ring, run).s.ctl.shouldClose
    ensures var c, n := Exec(cfg, ring, run), |Taken(cfg, ring, run)|;
            && |c.io.sent| == 1 + n + AllRounds(cfg, ring, run)
            && c.io.sent[|c.io.sent| - 1] == (if OackPending(c.s) then Oack else Ack(n % 0x1_0000))
            && (OackPending(c.s) ==> n == 0)
            && (ValidSession(c.s) && Retransmits(c.s, Timeout(false)) ==>
                  Sends(React(c.s, Timeout(false)).acts) == [c.io.sent[|c.io.sent| - 1]])
  {
    hide Exec, Taken, AllRounds, ValidRun, ValidSetup, ValidSession, Sends, React, Retransmits, WriteInv;
    WriteRun(cfg, ring, run);
    RepeatsLast(Exec(cfg, ring, run), Taken(cfg, ring, run), AllRounds(cfg, ring, run));
  }

  // ----------------------------------------------------------- read requests

  lemma DistanceTest(a: uint16, begin: uint16, next: uint16)
    ensures IsInRange(a, begin, Wrap16(next as int - 1)) <==>
              begin == next || (a - begin) % 0x1_0000 < (next - begin) % 0x1_0000
  {
    var d := (next - begin) % 0x1_0000;
    if begin == next {
      IsInRangeMeasuresDistance(a, begin, begin);
    } else {
      IsInRangeMeasuresDistance(a, begin, begin + d);
      LastOfWindow(begin, next);
      NotEmpty(begin, next);
    }
    SmallNumber(a);
    SmallNumber(begin);
    hide IsInRange;
  }

  /** A live read session takes an acknowledgement of its OACK, of a block of its
      window by the distance on the circle, and any at all if its window is
      empty, even while the OACK is pending. */
  lemma AckTakenIff(s: Session, e: Event)
    requires s.cfg.request == Read
    ensures Advances(s, e) <==>
              && e.PacketReceived? && e.arrival.FromPeer? && e.arrival.packet.Ack? && !s.ctl.shouldClose
              && (var a := e.arrival.packet.block;
                  || (OackPending(s) && a == 0)
                  || s.win.begin == s.win.next
                  || (a - s.win.begin) % 0x1_0000 < (s.win.next - s.win.begin) % 0x1_0000)
  {
    hide IsInRange, Wrap16;
    if e.PacketReceived? && e.arrival.FromPeer? && e.arrival.packet.Ack? {
      DistanceTest(e.arrival.packet.block, s.win.begin, s.win.next);
    }
  }
}
