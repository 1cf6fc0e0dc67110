/**
 What `send_file` keeps for files of at most 65534 blocks, whatever arrives.
 */
module SenderInvariant {
  import opened BlockNumbers
  import opened RingSlots
  import opened FileBlocks
  import opened Packets
  import opened Session
  import opened F = FileSender
  import G = GoBackN
  import R = Receiver

  /** The files the sender handles: beyond this `next` wraps. */
  predicate Sendable(cfg: SenderConfig)
  {
    1 <= cfg.blockSize && 1 <= cfg.windowSize && LastBlock(cfg.file, cfg.blockSize) <= 65534
  }

  /** The window as a Go-Back-N sender with unbounded numbers. */
  function Unbounded(r: FileSender): (s: G.Sender)
  {
    G.Sender(r.begin, r.next)
  }

  /** Block numbers, file position and end of file agree. */
  predicate NumbersRel(cfg: SenderConfig, r: FileSender)
    requires Sendable(cfg)
  {
    var last := LastBlock(cfg.file, cfg.blockSize);
    && 1 <= r.begin <= r.next <= last + 1
    && r.next <= r.begin + cfg.windowSize
    && (r.eof <==> r.next == last + 1)
    && (!r.eof ==> r.pos == Offset(cfg.blockSize, r.next - 1))
    && (2 <= r.next ==> r.lastSize == |BlockOf(cfg.file, cfg.blockSize, r.next - 1)|)
  }

  predicate IsBlock(cfg: SenderConfig, p: Packet, next: nat)
  {
    p.Data? && 1 <= p.block < next && p.payload == BlockOf(cfg.file, cfg.blockSize, p.block)
  }

  predicate SlotHolds(cfg: SenderConfig, slot: Slot, k: nat)
    requires 1 <= k
  {
    var b := BlockOf(cfg.file, cfg.blockSize, k);
    slot.block == k && |b| <= |slot.data| && slot.data[..|b|] == b
  }

  predicate RingHolds(cfg: SenderConfig, r: FileSender)
  {
    && 1 <= cfg.windowSize && |r.ring| == cfg.windowSize
    && forall k: uint16 :: 1 <= k && r.begin <= k < r.next ==> SlotHolds(cfg, r.ring[SlotOf(k, cfg.windowSize)], k)
  }

  /** Everything ever sent is a block of the file with its number. */
  predicate SentRel(cfg: SenderConfig, r: FileSender)
  {
    forall i :: 0 <= i < |r.sent| ==> IsBlock(cfg, r.sent[i], r.next)
  }

  predicate StatusRel(r: FileSender)
  {
    r.status == R.Succeeded ==> r.eof && r.begin == r.next && r.retransmissions == 0
  }

  predicate SenderInv(cfg: SenderConfig, r: FileSender)
  {
    && Sendable(cfg)
    && ValidSender(cfg, r)
    && NumbersRel(cfg, r)
    && RingHolds(cfg, r)
    && SentRel(cfg, r)
    && StatusRel(r)
  }

  /** Outside the sending phase something is unacknowledged until all is. */
  predicate Settled(r: FileSender)
  {
    r.status != R.Succeeded ==> r.begin < r.next
  }

  /** Time-out rounds so far: `retries + 1` for every acknowledged block, and
      those since the window last moved. */
  predicate BudgetRel(cfg: SenderConfig, r: FileSender)
    requires 1 <= r.begin
  {
    && r.retransmissions <= cfg.retries + 1
    && r.rounds <= Offset(cfg.retries + 1, r.begin - 1) + r.retransmissions
  }

  // ------------------------------------------------------- the sending phase

  lemma NextBlockIs(cfg: SenderConfig, r: FileSender)
    requires Sendable(cfg) && NumbersRel(cfg, r) && !r.eof && r.pos <= |cfg.file|
    ensures var bs: nat, k: nat := cfg.blockSize, r.next;
            var end := Min(r.pos + bs, |cfg.file|);
            && BlockOf(cfg.file, bs, k) == cfg.file[r.pos..end]
            && (end - r.pos < bs <==> k == LastBlock(cfg.file, bs))
            && (k < LastBlock(cfg.file, bs) ==> end == Offset(bs, k))
  {
    var bs: nat, k: nat := cfg.blockSize, r.next;
    LastBlockIsLast(cfg.file, bs);
    BlockExistsIff(cfg.file, bs, k);
    BlockExistsIff(cfg.file, bs, k + 1);
    ShortBlockIsLast(cfg.file, bs, k);
    if IsLastBlock(cfg.file, bs, k) {
      LastBlockUnique(cfg.file, bs, k, LastBlock(cfg.file, bs));
    }
    hide LastBlock;
  }

  lemma RoomTest(begin: uint16, next: uint16, w: uint16)
    requires begin <= next <= begin + w && 1 <= w
    ensures IsInRange(next, begin, Wrap16(begin + w - 1)) <==> next < begin + w
  {
    hide IsInRange, Wrap16;
    RoomIsDistance(begin, next, w);
    SmallNumber(next - begin);
  }

  lemma FillTest(cfg: SenderConfig, r: FileSender)
    requires Sendable(cfg) && NumbersRel(cfg, r)
    ensures CanFill(cfg, r) <==> !r.eof && r.next < r.begin + cfg.windowSize
  {
    hide IsInRange, Wrap16, LastBlock, Offset, BlockOf;
    RoomTest(r.begin, r.next, cfg.windowSize);
  }

  lemma FillOneKeepsRing(cfg: SenderConfig, r: FileSender)
    requires SenderInv(cfg, r)
    requires BlockOf(cfg.file, cfg.blockSize, r.next) == cfg.file[r.pos..Min(r.pos + cfg.blockSize, |cfg.file|)]
    requires r.next <= 65534 && r.next < r.begin + cfg.windowSize
    ensures RingHolds(cfg, FillOne(cfg, r))
  {
    hide NumbersRel, SentRel, StatusRel, SlotOf, BlockOf, Sendable;
    var w: nat := cfg.windowSize;
    var r' := FillOne(cfg, r);
    assert r'.next == r.next + 1 && r'.begin == r.begin;
    forall k: uint16 | 1 <= k && r.begin <= k < r'.next ensures SlotHolds(cfg, r'.ring[SlotOf(k, w)], k) {
      if k < r.next {
        SlotsDistinctUnwrapped(k, r.next, w);
        assert SlotHolds(cfg, r.ring[SlotOf(k, w)], k);
      }
    }
  }

  lemma FillOneNumbers(cfg: SenderConfig, r: FileSender)
    requires SenderInv(cfg, r) && !r.eof && r.next < r.begin + cfg.windowSize
    ensures r.next <= 65534 && NumbersRel(cfg, FillOne(cfg, r))
  {
    hide RingHolds, SentRel, SlotOf, BlockOf, Offset, LastBlock;
    NextBlockIs(cfg, r);
    assert Wrap16(r.next + 1) == r.next + 1;
  }

  lemma FillOneSent(cfg: SenderConfig, r: FileSender)
    requires SentRel(cfg, r) && ValidSender(cfg, r) && 1 <= r.next <= 65534
    requires BlockOf(cfg.file, cfg.blockSize, r.next) == cfg.file[r.pos..Min(r.pos + cfg.blockSize, |cfg.file|)]
    ensures SentRel(cfg, FillOne(cfg, r))
  {
    hide BlockOf, SlotOf;
    var r' := FillOne(cfg, r);
    assert r'.next == r.next + 1;
    forall i | 0 <= i < |r'.sent| ensures IsBlock(cfg, r'.sent[i], r'.next) {
      if i < |r.sent| {
        assert IsBlock(cfg, r.sent[i], r.next);
      }
    }
  }

  lemma FillOneKeeps(cfg: SenderConfig, r: FileSender)
    requires SenderInv(cfg, r) && CanFill(cfg, r) && r.status == R.Running
    ensures SenderInv(cfg, FillOne(cfg, r)) && FillOne(cfg, r).status == R.Running
    ensures G.SenderStep(Unbounded(r), Unbounded(FillOne(cfg, r)), cfg.windowSize)
  {
    hide IsInRange, SlotOf, BlockOf, Offset, LastBlock, RingHolds, SentRel, Wrap16, CanFill;
    FillTest(cfg, r);
    FillOneNumbers(cfg, r);
    NextBlockIs(cfg, r);
    FillOneKeepsRing(cfg, r);
    FillOneSent(cfg, r);
    FillOneNarrows(cfg, r);
    SmallNumber(r.next + 1);
    hide NumbersRel, ValidSender;
  }

  lemma FillOneAdvances(cfg: SenderConfig, r: FileSender)
    requires SenderInv(cfg, r) && CanFill(cfg, r)
    ensures var r' := FillOne(cfg, r);
            && r'.next == r.next + 1 && r'.begin == r.begin && r.sent <= r'.sent
            && r'.retransmissions == r.retransmissions && r'.rounds == r.rounds
  {
    hide NumbersRel, RingHolds, SentRel, CanFill, SlotOf, Wrap16, BlockOf, Sendable;
    FillTest(cfg, r);
    FillOneNumbers(cfg, r);
    SmallNumber(r.next + 1);
  }

  lemma {:induction false} FillKeeps(cfg: SenderConfig, r: FileSender)
    requires SenderInv(cfg, r) && r.status == R.Running
    ensures var r' := Fill(cfg, r);
            && SenderInv(cfg, r') && r'.status == R.Running && !CanFill(cfg, r')
            && r'.begin == r.begin && r'.retransmissions == r.retransmissions && r'.rounds == r.rounds
            && r.next <= r'.next && (CanFill(cfg, r) ==> r.next < r'.next)
            && r.sent <= r'.sent
    decreases if CanFill(cfg, r) then Room(cfg, r) + 1 else 0
  {
    if CanFill(cfg, r) {
      FillOneKeeps(cfg, r);
      FillOneNarrows(cfg, r);
      FillOneAdvances(cfg, r);
      hide SenderInv, CanFill, FillOne;
      FillKeeps(cfg, FillOne(cfg, r));
    }
  }

  /** After the sending phase the window is not empty. */
  lemma FillSettles(cfg: SenderConfig, r: FileSender)
    requires SenderInv(cfg, r) && r.status == R.Running && (r.eof ==> r.begin < r.next)
    ensures Settled(Fill(cfg, r))
  {
    FillKeeps(cfg, r);
    FillTest(cfg, r);
    hide RingHolds, SentRel, CanFill, Fill;
  }

  // ----------------------------------------------------- the receiving phase

  /** While the window is not empty the 16-bit test is the unbounded test. */
  lemma AckStep(cfg: SenderConfig, r: FileSender, a: uint16)
    requires SenderInv(cfg, r) && r.status == R.Running && Settled(r)
    ensures var r' := F.OnAck(r, a);
            && SenderInv(cfg, r')
            && (G.Acknowledges(Unbounded(r), a) <==> r' != r)
            && Unbounded(r') == G.Acknowledge(Unbounded(r), a)
            && (r'.status == R.Succeeded <==> a == LastBlock(cfg.file, cfg.blockSize) && G.Acknowledges(Unbounded(r), a))
            && (r'.status == R.Running && r'.eof ==> r'.begin < r'.next)
            && r'.sent == r.sent && r'.rounds == r.rounds
            && (r' != r ==> r'.retransmissions == 0 && r.begin < r'.begin)
  {
    hide IsInRange, BlockOf, Offset, LastBlock, SlotHolds, IsBlock, Wrap16;
    IsInRangeDecidesWindow(a, r.begin, r.next);
    SmallNumber(a);
    SmallNumber(r.begin);
    if a < r.next {
      SmallNumber(a + 1);
    }
  }

  lemma ResentIsBlock(cfg: SenderConfig, r: FileSender, k: uint16)
    requires SenderInv(cfg, r) && r.begin <= k < r.next
    ensures IsBlock(cfg, StoredData(cfg, r, k), r.next) && StoredData(cfg, r, k).block == k
  {
    var bs: nat := cfg.blockSize;
    assert SlotHolds(cfg, r.ring[SlotOf(k, cfg.windowSize)], k);
    BlockExistsIff(cfg.file, bs, k);
    ShortBlockIsLast(cfg.file, bs, k);
    LastBlockIsLast(cfg.file, bs);
    if k < r.next - 1 && IsLastBlock(cfg.file, bs, k) {
      LastBlockUnique(cfg.file, bs, k, LastBlock(cfg.file, bs));
    }
    hide RingHolds, SentRel, LastBlock, Offset, BlockOf, SlotOf;
  }

  /** A time-out sends every unacknowledged block once, unchanged. */
  lemma TimeoutStep(cfg: SenderConfig, r: FileSender)
    requires SenderInv(cfg, r) && r.status == R.Running && Settled(r)
    ensures var r' := F.OnTimeout(cfg, r);
            && SenderInv(cfg, r') && Unbounded(r') == Unbounded(r) && r.sent <= r'.sent
            && |ResentWindow(cfg, r)| == r.next - r.begin
            && (forall i :: 0 <= i < |ResentWindow(cfg, r)| ==>
                  IsBlock(cfg, ResentWindow(cfg, r)[i], r.next) && ResentWindow(cfg, r)[i].block == r.begin + i)
  {
    hide BlockOf, SlotOf, StoredData, LastBlock, Offset;
    assert Wrap16(r.next - r.begin) == r.next - r.begin;
    forall i | 0 <= i < r.next - r.begin
      ensures IsBlock(cfg, ResentWindow(cfg, r)[i], r.next) && ResentWindow(cfg, r)[i].block == r.begin + i
    {
      assert Wrap16(r.begin + i) == r.begin + i;
      ResentIsBlock(cfg, r, r.begin + i);
    }
  }

  // ---------------------------------------------------------------- turns

  /** What holds whenever the sender waits for a packet. */
  predicate TurnInv(cfg: SenderConfig, r: FileSender)
  {
    SenderInv(cfg, r) && Settled(r) && (cfg.retries <= 254 ==> BudgetRel(cfg, r))
  }

  lemma AckBudget(cfg: SenderConfig, r: FileSender, r': FileSender)
    requires 1 <= r.begin < r'.begin && BudgetRel(cfg, r)
    requires r'.retransmissions == 0 && r'.rounds == r.rounds
    ensures BudgetRel(cfg, r')
  {
    OffsetMonotonic(cfg.retries + 1, r.begin, r'.begin - 1);
  }

  lemma ReceiveKeeps(cfg: SenderConfig, r: FileSender, o: R.Outcome)
    requires TurnInv(cfg, r) && r.status == R.Running
    ensures var r' := Receive(cfg, r, o);
            && SenderInv(cfg, r') && r.sent <= r'.sent
            && (cfg.retries <= 254 ==> BudgetRel(cfg, r'))
            && (r'.status == R.Failed ==> Settled(r'))
            && (r'.status == R.Running && r'.eof ==> r'.begin < r'.next)
            && G.SenderStep(Unbounded(r), Unbounded(r'), cfg.windowSize)
  {
    match o
    case TimedOut =>
      TimeoutStep(cfg, r);
      hide NumbersRel, RingHolds, SentRel, ResentWindow, ValidSender;
    case Received(p, _) =>
      if p.Ack? {
        AckStep(cfg, r, p.block);
        var r' := F.OnAck(r, p.block);
        if r' != r && cfg.retries <= 254 {
          AckBudget(cfg, r, r');
        }
        hide SenderInv, F.OnAck, BudgetRel;
      }
    case _ =>
  }

  lemma TurnKeeps(cfg: SenderConfig, r: FileSender, o: R.Outcome)
    requires TurnInv(cfg, r)
    ensures TurnInv(cfg, Turn(cfg, r, o)) && r.sent <= Turn(cfg, r, o).sent
  {
    hide NumbersRel, RingHolds, SentRel, ValidSender, Sendable, Receive, Fill, Offset;
    if r.status == R.Running {
      ReceiveKeeps(cfg, r, o);
      var r1 := Receive(cfg, r, o);
      if r1.status == R.Running {
        FillKeeps(cfg, r1);
        FillSettles(cfg, r1);
      } else if r1.status == R.Succeeded {
        assert Settled(r1);
      }
    }
  }

  predicate ValidStart(cfg: SenderConfig, ring: seq<Slot>)
  {
    Sendable(cfg) && ValidSender(cfg, InitialSender(ring))
  }

  lemma StartKeeps(cfg: SenderConfig, ring: seq<Slot>)
    requires ValidStart(cfg, ring)
    ensures SenderInv(cfg, InitialSender(ring))
  {
  }

  lemma {:induction false} RunKeeps(cfg: SenderConfig, ring: seq<Slot>, script: seq<R.Outcome>)
    requires ValidStart(cfg, ring)
    ensures TurnInv(cfg, Run(cfg, ring, script))
  {
    if script == [] {
      StartKeeps(cfg, ring);
      FillKeeps(cfg, InitialSender(ring));
      FillSettles(cfg, InitialSender(ring));
      hide SenderInv, Fill;
    } else {
      RunKeeps(cfg, ring, script[..|script| - 1]);
      TurnKeeps(cfg, Run(cfg, ring, script[..|script| - 1]), script[|script| - 1]);
      hide TurnInv, Turn;
    }
  }

  // ------------------------------------------------------------- guarantees

  /** `is_in_range` accepts exactly the numbers of the window. */
  predicate TestIsExact(begin: uint16, next: uint16)
  {
    var last := Wrap16(next - 1);
    forall a: uint16 :: IsInRange(a, begin, last) <==> begin <= a < next
  }

  lemma UnwrappedTest(begin: uint16, next: uint16)
    requires begin < next
    ensures TestIsExact(begin, next)
  {
    var last := Wrap16(next - 1);
    forall a: uint16 ensures IsInRange(a, begin, last) <==> begin <= a < next {
      IsInRangeDecidesWindow(a, begin, next);
    }
  }

  /** The 16-bit sender follows a Go-Back-N sender with unbounded numbers, and
      it waits for packets only with a non-empty window of at most `w` blocks. */
  lemma SenderIsGoBackN(cfg: SenderConfig, ring: seq<Slot>, script: seq<R.Outcome>, o: R.Outcome)
    requires ValidStart(cfg, ring) && Run(cfg, ring, script).status == R.Running
    ensures var r := Run(cfg, ring, script);
            && r.begin < r.next <= r.begin + cfg.windowSize
            && G.SenderStep(Unbounded(r), Unbounded(Receive(cfg, r, o)), cfg.windowSize)
            && TestIsExact(r.begin, r.next)
  {
    hide IsInRange, Wrap16, Receive, RingHolds, SentRel, Run, BudgetRel, LastBlock, G.SenderStep, TestIsExact;
    RunKeeps(cfg, ring, script);
    var r := Run(cfg, ring, script);
    ReceiveKeeps(cfg, r, o);
    UnwrappedTest(r.begin, r.next);
  }

  lemma FillIsFull(cfg: SenderConfig, r: FileSender)
    requires SenderInv(cfg, r) && r.status == R.Running
    ensures !CanFill(cfg, Fill(cfg, r))
  {
    FillKeeps(cfg, r);
  }

  /** A sender that waits has filled its window. */
  lemma WindowIsFull(cfg: SenderConfig, ring: seq<Slot>, script: seq<R.Outcome>)
    requires ValidStart(cfg, ring) && Run(cfg, ring, script).status == R.Running
    ensures !CanFill(cfg, Run(cfg, ring, script))
  {
    hide SenderInv, Fill, CanFill, Receive;
    if script == [] {
      StartKeeps(cfg, ring);
      FillIsFull(cfg, InitialSender(ring));
    } else {
      var r := Run(cfg, ring, script[..|script| - 1]);
      RunKeeps(cfg, ring, script[..|script| - 1]);
      ReceiveKeeps(cfg, r, script[|script| - 1]);
      FillIsFull(cfg, Receive(cfg, r, script[|script| - 1]));
    }
  }

  lemma SettledWindow(cfg: SenderConfig, r: FileSender)
    requires TurnInv(cfg, r) && r.status == R.Running
    ensures r.begin < r.next
  {
  }

  lemma FullStays(cfg: SenderConfig, r: FileSender)
    requires ValidSender(cfg, r) && !CanFill(cfg, r)
    ensures Fill(cfg, r) == r
  {
  }

  /** What becomes of a sender that has filled its window. */
  lemma OtherTurn(cfg: SenderConfig, r: FileSender, o: R.Outcome)
    requires TurnInv(cfg, r) && r.status == R.Running && !CanFill(cfg, r) && !o.TimedOut?
    ensures var r' := Turn(cfg, r, o);
            && (o.RecvError? || (o.Received? && !o.packet.Ack?) ==> r'.status == R.Failed && r'.sent == r.sent)
            && (o.FromStranger? ==> r' == r)
            && (o.Received? && o.packet.Ack? && !(r.begin <= o.packet.block < r.next) ==> r' == r)
  {
    hide NumbersRel, RingHolds, SentRel, StatusRel, Sendable, CanFill, IsInRange, Wrap16, BudgetRel, Fill, FillOne;
    if o.Received? && o.packet.Ack? {
      SettledWindow(cfg, r);
      IsInRangeDecidesWindow(o.packet.block, r.begin, r.next);
      SmallNumber(o.packet.block);
      SmallNumber(r.begin);
    }
    FullStays(cfg, r);
  }

  /** Anything but an acknowledgement of the window leaves the sender as it is
      or ends it without an answer. */
  lemma OtherOutcomes(cfg: SenderConfig, ring: seq<Slot>, script: seq<R.Outcome>, o: R.Outcome)
    requires ValidStart(cfg, ring) && Run(cfg, ring, script).status == R.Running && !o.TimedOut?
    ensures var r, r' := Run(cfg, ring, script), Run(cfg, ring, script + [o]);
            && (o.RecvError? || (o.Received? && !o.packet.Ack?) ==> r'.status == R.Failed && r'.sent == r.sent)
            && (o.FromStranger? ==> r' == r)
            && (o.Received? && o.packet.Ack? && !(r.begin <= o.packet.block < r.next) ==> r' == r)
  {
    hide TurnInv, CanFill, Turn, Sendable;
    assert (script + [o])[..|script + [o]| - 1] == script;
    RunKeeps(cfg, ring, script);
    WindowIsFull(cfg, ring, script);
    OtherTurn(cfg, Run(cfg, ring, script), o);
  }

  /** The last result was a time-out after which the sender went on: it has
      sent its window again. */
  predicate IsRound(cfg: SenderConfig, r: FileSender, o: R.Outcome)
    requires ValidSender(cfg, r)
  {
    r.status == R.Running && o.TimedOut? && Turn(cfg, r, o).status == R.Running
  }

  /** Rounds of retransmission since the window last moved. */
  function RoundsSinceAdvance(cfg: SenderConfig, ring: seq<Slot>, script: seq<R.Outcome>): (n: nat)
    requires ValidStart(cfg, ring)
  {
    if script == [] then 0
    else
      var before, o := script[..|script| - 1], script[|script| - 1];
      if Run(cfg, ring, script).begin != Run(cfg, ring, before).begin then 0
      else RoundsSinceAdvance(cfg, ring, before) + if IsRound(cfg, Run(cfg, ring, before), o) then 1 else 0
  }

  lemma TurnCounts(cfg: SenderConfig, r: FileSender, o: R.Outcome)
    requires TurnInv(cfg, r) && ValidSender(cfg, r) && cfg.retries <= 254
    ensures var r' := Turn(cfg, r, o);
            r'.retransmissions == if r'.begin != r.begin then 0
                                  else r.retransmissions + if IsRound(cfg, r, o) then 1 else 0
  {
    hide NumbersRel, RingHolds, SentRel, BudgetRel, Fill, LastBlock, ResentWindow, Offset, ValidSender, G.Acknowledges, G.Acknowledge;
    if r.status == R.Running {
      ReceiveKeeps(cfg, r, o);
      if o.Received? && o.packet.Ack? {
        AckStep(cfg, r, o.packet.block);
      }
      if Receive(cfg, r, o).status == R.Running {
        FillKeeps(cfg, Receive(cfg, r, o));
      }
      if o.TimedOut? && r.retransmissions <= cfg.retries {
        assert Wrap8(r.retransmissions + 1) == r.retransmissions + 1;
      }
      hide F.OnAck, Wrap8, SenderInv;
    }
  }

  lemma StartCounts(cfg: SenderConfig, ring: seq<Slot>)
    requires ValidStart(cfg, ring)
    ensures Run(cfg, ring, []).retransmissions == 0
  {
    StartKeeps(cfg, ring);
    FillKeeps(cfg, InitialSender(ring));
    hide SenderInv, Fill;
  }

  lemma {:induction false} CounterCountsRounds(cfg: SenderConfig, ring: seq<Slot>, script: seq<R.Outcome>)
    requires ValidStart(cfg, ring) && cfg.retries <= 254
    ensures RoundsSinceAdvance(cfg, ring, script) == Run(cfg, ring, script).retransmissions
  {
    hide TurnInv, Turn, IsRound, Sendable;
    if script == [] {
      StartCounts(cfg, ring);
    } else {
      var before := script[..|script| - 1];
      CounterCountsRounds(cfg, ring, before);
      RunKeeps(cfg, ring, before);
      TurnCounts(cfg, Run(cfg, ring, before), script[|script| - 1]);
    }
  }

  lemma LastBlockIs(cfg: SenderConfig)
    requires 1 <= cfg.blockSize
    ensures LastBlock(cfg.file, cfg.blockSize) == |cfg.file| / cfg.blockSize + 1
  {
  }

  lemma OffsetNext(bs: nat, k: nat)
    requires 1 <= k
    ensures Offset(bs, k) == Offset(bs, k - 1) + bs
  {
  }

  /** With at most 254 retries there are at most `retries + 1` time-out rounds
      between two advances of the window, and `retries + 1` for each block in all. */
  lemma RoundsBounded(cfg: SenderConfig, ring: seq<Slot>, script: seq<R.Outcome>)
    requires ValidStart(cfg, ring) && cfg.retries <= 254
    ensures var r, blocks := Run(cfg, ring, script), |cfg.file| / cfg.blockSize + 1;
            && RoundsSinceAdvance(cfg, ring, script) == r.retransmissions <= cfg.retries + 1
            && r.rounds <= blocks * (cfg.retries + 1)
  {
    hide Offset, LastBlock, RingHolds, SentRel, RoundsSinceAdvance, Run;
    RunKeeps(cfg, ring, script);
    CounterCountsRounds(cfg, ring, script);
    var r, blocks := Run(cfg, ring, script), LastBlock(cfg.file, cfg.blockSize);
    assert blocks == |cfg.file| / cfg.blockSize + 1 by { LastBlockIs(cfg); }
    assert r.begin - 1 <= blocks;
    if r.status == R.Succeeded {
      OffsetMonotonic(cfg.retries + 1, r.begin - 1, blocks);
    } else {
      OffsetMonotonic(cfg.retries + 1, r.begin, blocks);
      OffsetNext(cfg.retries + 1, r.begin);
    }
    OffsetIsProduct(cfg.retries + 1, blocks);
  }

  // ------------------------------------------------- why the hypotheses

  /** `n` time-outs in a row. */
  function TimeoutsInARow(cfg: SenderConfig, r: FileSender, n: nat): (r': FileSender)
    requires ValidSender(cfg, r)
    ensures ValidSender(cfg, r')
  {
    if n == 0 then r else Turn(cfg, TimeoutsInARow(cfg, r, n - 1), R.TimedOut)
  }

  /** The state of the counter after `n` time-outs in a row. */
  predicate CounterRel(cfg: SenderConfig, r: FileSender, n: nat)
  {
    && TurnInv(cfg, r)
    && (r.status == R.Failed <==> cfg.retries <= 254 && n > cfg.retries + 1)
    && (r.status != R.Failed ==> r.status == R.Running && r.retransmissions == Wrap8(n))
  }

  lemma CounterAfter(n: nat)
    ensures Wrap8(Wrap8(n) + 1) == Wrap8(n + 1) && Wrap8(0) == 0
    ensures n <= 255 ==> Wrap8(n) == n
  {
  }

  lemma FailedStays(cfg: SenderConfig, r: FileSender, o: R.Outcome)
    requires ValidSender(cfg, r) && r.status != R.Running
    ensures Turn(cfg, r, o) == r
  {
  }

  lemma TimeoutTurn(cfg: SenderConfig, r: FileSender)
    requires TurnInv(cfg, r) && r.status == R.Running
    ensures var r' := Turn(cfg, r, R.TimedOut);
            if r.retransmissions > cfg.retries then r'.status == R.Failed
            else r'.status == R.Running && r'.retransmissions == Wrap8(r.retransmissions + 1)
  {
    TimeoutStep(cfg, r);
    if r.retransmissions <= cfg.retries {
      FillKeeps(cfg, F.OnTimeout(cfg, r));
    }
    hide SenderInv, Fill;
  }

  lemma CounterStep(cfg: SenderConfig, r: FileSender, n: nat)
    requires CounterRel(cfg, r, n) && ValidSender(cfg, r)
    ensures CounterRel(cfg, Turn(cfg, r, R.TimedOut), n + 1)
  {
    hide TurnInv, Turn, Wrap8;
    CounterAfter(n);
    TurnKeeps(cfg, r, R.TimedOut);
    if r.status == R.Running {
      TimeoutTurn(cfg, r);
    } else {
      FailedStays(cfg, r, R.TimedOut);
    }
  }

  /** The counter is a `uint8_t`: the sender gives up after `retries + 2`
      time-outs in a row if `retries` is at most 254, and never if it is 255. */
  lemma {:induction false} GivesUpIff(cfg: SenderConfig, r: FileSender, n: nat)
    requires TurnInv(cfg, r) && ValidSender(cfg, r) && r.status == R.Running && r.retransmissions == 0
    ensures CounterRel(cfg, TimeoutsInARow(cfg, r, n), n)
    ensures TimeoutsInARow(cfg, r, n).status == R.Failed <==> cfg.retries <= 254 && n > cfg.retries + 1
  {
    hide TurnInv, Turn;
    if n > 0 {
      GivesUpIff(cfg, r, n - 1);
      CounterStep(cfg, TimeoutsInARow(cfg, r, n - 1), n - 1);
    }
  }
}
