/**
 What every event of every session keeps, whatever arrives: the session stays
 well formed and `pending_jobs` counts its outstanding operations modulo 256.
 */
module SessionJobs {
  import opened BlockNumbers
  import opened FileBlocks
  import opened Packets
  import opened Session

  predicate JobsCounted(io: Io)
  {
    io.pendingJobs == Wrap8(|io.outstanding|)
  }

  function Sends(acts: seq<Action>): (r: seq<Packet>)
  {
    if acts == [] then []
    else
      var a := acts[|acts| - 1];
      Sends(acts[..|acts| - 1]) + if a.Send? then [a.packet] else []
  }

  function Submissions(acts: seq<Action>): (r: multiset<Op>)
  {
    if acts == [] then multiset{}
    else
      var a := acts[|acts| - 1];
      Submissions(acts[..|acts| - 1]) + if a.Submit? then multiset{a.op} else multiset{}
  }

  /** What a list of actions does to the socket, the dispatcher and the counter. */
  lemma {:induction false} PerformEffect(io: Io, acts: seq<Action>)
    ensures Perform(io, acts).sent == io.sent + Sends(acts)
    ensures Perform(io, acts).outstanding == io.outstanding + Submissions(acts)
  {
    if acts != [] {
      PerformEffect(io, acts[..|acts| - 1]);
    }
  }

  /** What was submitted or outstanding is outstanding afterwards. */
  lemma {:induction false} SubmittedIsOutstanding(io: Io, acts: seq<Action>)
    ensures forall op :: Submit(op) in acts ==> op in Perform(io, acts).outstanding
    ensures forall op :: op in io.outstanding ==> op in Perform(io, acts).outstanding
  {
    if acts != [] {
      SubmittedIsOutstanding(io, acts[..|acts| - 1]);
    }
  }

  /** A counter of eight bits after one step up or down. */
  lemma Wrap8Next(t: int)
    ensures Wrap8(t + 1) == if Wrap8(t) == 255 then 0 else Wrap8(t) + 1
    ensures Wrap8(t - 1) == if Wrap8(t) == 0 then 255 else Wrap8(t) - 1
  {
    var q, r := t / 0x100, t % 0x100;
    DivModUnique(t + 1, 0x100, if r == 255 then q + 1 else q, if r == 255 then 0 else r + 1);
    DivModUnique(t - 1, 0x100, if r == 0 then q - 1 else q, if r == 0 then 255 else r - 1);
  }

  lemma Wrap8Small(n: uint8)
    ensures Wrap8(n) == n
  {
  }

  lemma Wrap8Steps(t: int)
    ensures Wrap8(Wrap8(t) + 1) == Wrap8(t + 1) && Wrap8(Wrap8(t) - 1) == Wrap8(t - 1)
  {
    hide Wrap8;
    Wrap8Next(t);
    Wrap8Next(Wrap8(t));
    Wrap8Small(Wrap8(t));
  }

  lemma PerformOneCounts(io: Io, a: Action)
    requires JobsCounted(io)
    ensures JobsCounted(PerformOne(io, a))
  {
    Wrap8Steps(|io.outstanding|);
  }

  /** Every submission is counted, modulo 256. */
  lemma {:induction false} PerformCounts(io: Io, acts: seq<Action>)
    requires JobsCounted(io)
    ensures JobsCounted(Perform(io, acts))
  {
    if acts != [] {
      PerformCounts(io, acts[..|acts| - 1]);
      PerformOneCounts(Perform(io, acts[..|acts| - 1]), acts[|acts| - 1]);
    }
  }

  /** Every completion is counted, modulo 256. */
  lemma CompleteCounts(io: Io, e: Event)
    requires Completed(e) <= io.outstanding && JobsCounted(io)
    ensures JobsCounted(Complete(io, e))
  {
    Wrap8Steps(|io.outstanding|);
    if !e.Start? {
      assert |Completed(e)| == 1;
      assert |Complete(io, e).outstanding| == |io.outstanding| - 1;
    }
  }

  lemma {:induction false} SubmissionsOf(acts: seq<Action>, op: Op)
    requires Submit(op) !in acts
    ensures op !in Submissions(acts)
  {
    if acts != [] {
      SubmissionsOf(acts[..|acts| - 1], op);
    }
  }

  lemma {:induction false} SendsConcat(a: seq<Action>, b: seq<Action>)
    ensures Sends(a + b) == Sends(a) + Sends(b)
    ensures Submissions(a + b) == Submissions(a) + Submissions(b)
  {
    if b == [] {
      assert a + b == a;
    } else {
      assert (a + b)[..|a + b| - 1] == a + b[..|b| - 1];
      SendsConcat(a, b[..|b| - 1]);
    }
  }

  lemma {:induction false} SentAreSends(acts: seq<Action>, p: Packet)
    requires p in Sends(acts)
    ensures Send(p) in acts
  {
    var n := |acts| - 1;
    if p in Sends(acts[..n]) {
      SentAreSends(acts[..n], p);
    }
  }

  lemma {:induction false} SendIsSent(acts: seq<Action>, p: Packet)
    requires Send(p) in acts
    ensures p in Sends(acts)
  {
    var n := |acts| - 1;
    if acts[n] != Send(p) {
      SendIsSent(acts[..n], p);
    }
  }

  lemma EmptySends()
    ensures Sends([]) == []
  {
  }

  lemma SubmitsOnly(op: Op)
    ensures Sends([Submit(op)]) == []
  {
  }

  lemma {:induction false} SendsOfSendAll(ps: seq<Packet>)
    ensures Sends(SendAll(ps)) == ps
    ensures Submissions(SendAll(ps)) == multiset{}
  {
    if ps != [] {
      assert SendAll(ps)[..|ps| - 1] == SendAll(ps[..|ps| - 1]);
      SendsOfSendAll(ps[..|ps| - 1]);
    }
  }

  /** Every event keeps the session well formed under the same configuration. */
  lemma ReactValid(s: Session, e: Event)
    requires ValidSession(s) && Deliverable(s, e)
    ensures ValidSession(React(s, e).s) && React(s, e).s.cfg == s.cfg
  {
  }

  /** `pending_jobs` equals, modulo 256, the number of submitted and
      uncompleted operations after every event, and nothing sent is unsent. */
  lemma HandleEventKeeps(c: Ctx, e: Event)
    requires Enabled(c, e) && JobsCounted(c.io)
    ensures ValidSession(HandleEvent(c, e).s) && HandleEvent(c, e).s.cfg == c.s.cfg
    ensures JobsCounted(HandleEvent(c, e).io)
    ensures c.io.sent <= HandleEvent(c, e).io.sent
  {
    hide React, Wrap8;
    ReactValid(c.s, e);
    var io, acts := Complete(c.io, e), React(c.s, e).acts;
    CompleteCounts(c.io, e);
    PerformEffect(io, acts);
    PerformCounts(io, acts);
  }

  /** The next number moves with every block that is sent, and only then. */
  lemma NextAfter(c: Ctx, e: Event)
    requires Enabled(c, e)
    ensures HandleEvent(c, e).s.win.next == if SendsBlock(c.s, e) then Wrap16(c.s.win.next + 1) else c.s.win.next
  {
    hide Wrap16, IsInRange, Retransmission, SlotOf, AckAccepted, Perform, Complete;
  }

  /** A session reports CLOSED exactly when it is closing and the number of
      its outstanding operations is a multiple of 256; below 256 that means none. */
  lemma ClosedIff(c: Ctx)
    requires JobsCounted(c.io)
    ensures ReportsClosed(c) <==> c.s.ctl.shouldClose && |c.io.outstanding| % 0x100 == 0
    ensures ReportsClosed(c) && |c.io.outstanding| <= 255 ==> c.io.outstanding == multiset{}
  {
  }
}
