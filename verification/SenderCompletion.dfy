/**
 Which files `send_file` can complete: block numbers of any size, compared as
 the code compares them.
 */
module SenderCompletion {
  import opened BlockNumbers
  import opened FileBlocks
  import opened Packets
  import opened Session
  import opened FileSender
  import R = Receiver

  /** The number of the last block, plus one, is the next number after wrapping. */
  predicate AllRead(cfg: SenderConfig, next: uint16)
    requires 1 <= cfg.blockSize
  {
    next == Wrap16(LastBlock(cfg.file, cfg.blockSize) + 1)
  }

  /** `k` full blocks have been read and numbered, and the file goes on. */
  predicate Before(cfg: SenderConfig, r: FileSender, k: nat)
  {
    r.pos == Offset(cfg.blockSize, k) && r.next == Wrap16(k + 1)
  }

  ghost predicate Numbered(cfg: SenderConfig, r: FileSender)
    requires 1 <= cfg.blockSize
  {
    && (if r.eof then AllRead(cfg, r.next) else exists k: nat :: Before(cfg, r, k))
    && (r.status == R.Succeeded ==> r.eof && r.next != 0)
  }

  /** Reading block `k + 1`: it is short exactly when it is the last. */
  lemma ReadNext(cfg: SenderConfig, r: FileSender, k: nat)
    requires ValidSender(cfg, r) && !r.eof && Before(cfg, r, k)
    ensures var r', bs := FillOne(cfg, r), cfg.blockSize;
            && r'.next == Wrap16(k + 2)
            && (r'.eof <==> k + 1 == LastBlock(cfg.file, bs))
            && (!r'.eof ==> r'.pos == Offset(bs, k + 1))
            && r'.sent == r.sent + [Data(Wrap16(k + 1), BlockOf(cfg.file, bs, k + 1))]
            && r'.begin == r.begin && r'.status == r.status
  {
    var bs: nat := cfg.blockSize;
    NextNumber(k + 1);
    assert Offset(bs, k + 1) == Offset(bs, k) + bs;
    LastBlockIsLast(cfg.file, bs);
    if IsLastBlock(cfg.file, bs, k + 1) {
      LastBlockUnique(cfg.file, bs, k + 1, LastBlock(cfg.file, bs));
    }
    hide LastBlock, SlotOf, Wrap16;
  }

  lemma FillOneNumbered(cfg: SenderConfig, r: FileSender)
    requires ValidSender(cfg, r) && !r.eof && Numbered(cfg, r)
    ensures Numbered(cfg, FillOne(cfg, r))
  {
    hide FillOne, Wrap16, ValidSender, LastBlock;
    var k: nat :| Before(cfg, r, k);
    ReadNext(cfg, r, k);
    if !FillOne(cfg, r).eof {
      assert Before(cfg, FillOne(cfg, r), k + 1);
    }
  }

  lemma {:induction false} FillNumbered(cfg: SenderConfig, r: FileSender)
    requires ValidSender(cfg, r) && Numbered(cfg, r)
    ensures Numbered(cfg, Fill(cfg, r))
    decreases if CanFill(cfg, r) then Room(cfg, r) + 1 else 0
  {
    if CanFill(cfg, r) {
      FillOneNarrows(cfg, r);
      FillOneNumbered(cfg, r);
      hide Numbered, FillOne;
      FillNumbered(cfg, FillOne(cfg, r));
    }
  }

  /** A transfer succeeds only by `block == next - 1`, which is never so when
      the next number has wrapped to 0. */
  lemma ReceiveNumbered(cfg: SenderConfig, r: FileSender, o: R.Outcome)
    requires ValidSender(cfg, r) && Numbered(cfg, r) && r.status == R.Running
    ensures Numbered(cfg, Receive(cfg, r, o))
  {
    hide IsInRange, Wrap16, ResentWindow, AllRead, ValidSender;
    var r' := Receive(cfg, r, o);
    assert r'.pos == r.pos && r'.next == r.next && r'.eof == r.eof;
    if !r.eof {
      var k: nat :| Before(cfg, r, k);
      assert Before(cfg, r', k);
    }
  }

  lemma TurnNumbered(cfg: SenderConfig, r: FileSender, o: R.Outcome)
    requires ValidSender(cfg, r) && Numbered(cfg, r)
    ensures Numbered(cfg, Turn(cfg, r, o))
  {
    hide IsInRange, Wrap16, ResentWindow, AllRead, ValidSender, Fill;
    if r.status == R.Running {
      var r1 := Receive(cfg, r, o);
      ReceiveNumbered(cfg, r, o);
      if r1.status == R.Running {
        hide Numbered, Receive;
        FillNumbered(cfg, r1);
      }
    }
  }

  lemma {:induction false} RunNumbered(cfg: SenderConfig, ring: seq<Slot>, script: seq<R.Outcome>)
    requires ValidSender(cfg, InitialSender(ring))
    ensures Numbered(cfg, Run(cfg, ring, script))
  {
    if script == [] {
      assert Before(cfg, InitialSender(ring), 0);
      FillNumbered(cfg, InitialSender(ring));
    } else {
      hide Numbered;
      RunNumbered(cfg, ring, script[..|script| - 1]);
      TurnNumbered(cfg, Run(cfg, ring, script[..|script| - 1]), script[|script| - 1]);
    }
  }

  /** The number of the last block is 65535 modulo 65536. */
  predicate EndsOnWrap(cfg: SenderConfig)
    requires 1 <= cfg.blockSize
  {
    LastBlock(cfg.file, cfg.blockSize) % WRAP == WRAP - 1
  }

  lemma WrapsToZero(last: nat)
    ensures Wrap16(last + 1) == 0 <==> last % WRAP == WRAP - 1
    ensures Wrap16(last + 1) != 0 ==> Wrap16(last) == Wrap16(last + 1) - 1
  {
  }

  /** No run sends such a file to the end, whatever is received and whatever
      the window. */
  lemma NeverCompletes(cfg: SenderConfig, ring: seq<Slot>, script: seq<R.Outcome>)
    requires ValidSender(cfg, InitialSender(ring)) && EndsOnWrap(cfg)
    ensures Run(cfg, ring, script).status != R.Succeeded
  {
    RunNumbered(cfg, ring, script);
    WrapsToZero(LastBlock(cfg.file, cfg.blockSize));
    hide Run, LastBlock;
  }

  // ------------------------------------------------------ lock-step transfers

  /** Acknowledgements of blocks 1 to `n`, one after the other. */
  function AcksUpTo(n: nat): (script: seq<R.Outcome>)
  {
    if n == 0 then [] else AcksUpTo(n - 1) + [R.Received(Ack(Wrap16(n)), R.WriteOk)]
  }

  /** Blocks 1 to `n` of the file, as they are first sent. */
  function BlocksUpTo(cfg: SenderConfig, n: nat): (ps: seq<Packet>)
  {
    if n == 0 then [] else BlocksUpTo(cfg, n - 1) + [Data(Wrap16(n), BlockOf(cfg.file, cfg.blockSize, n))]
  }

  /** With a window of one, block `n + 1` has just been sent. */
  predicate Awaiting(cfg: SenderConfig, r: FileSender, n: nat)
    requires 1 <= cfg.blockSize
  {
    && r.status == R.Running && r.begin == Wrap16(n + 1) && r.next == Wrap16(n + 2)
    && (r.eof <==> n + 1 == LastBlock(cfg.file, cfg.blockSize))
    && (!r.eof ==> r.pos == Offset(cfg.blockSize, n + 1))
    && r.sent == BlocksUpTo(cfg, n + 1)
  }

  lemma OneApart(n: nat)
    ensures Wrap16(n) != Wrap16(n + 1)
    ensures IsInRange(Wrap16(n + 1), Wrap16(n), Wrap16(Wrap16(n) + 1 - 1)) <==> false
    ensures IsInRange(Wrap16(n), Wrap16(n), Wrap16(Wrap16(n) + 1 - 1))
    ensures IsInRange(Wrap16(n), Wrap16(n), Wrap16(Wrap16(n + 1) - 1))
  {
  }

  /** From an empty window of one, exactly one block is sent. */
  lemma FillOnce(cfg: SenderConfig, r: FileSender, n: nat)
    requires ValidSender(cfg, r) && cfg.windowSize == 1 && r.status == R.Running
    requires !r.eof && Before(cfg, r, n) && r.begin == r.next && n < LastBlock(cfg.file, cfg.blockSize)
    requires r.sent == BlocksUpTo(cfg, n)
    ensures Awaiting(cfg, Fill(cfg, r), n)
  {
    hide IsInRange, Wrap16, LastBlock;
    OneApart(n + 1);
    ReadNext(cfg, r, n);
    FillOneNarrows(cfg, r);
    hide FillOne, ValidSender;
    assert Fill(cfg, FillOne(cfg, r)) == FillOne(cfg, r);
  }

  /** The acknowledgement of a block that is not the last brings the next one. */
  lemma AckAdvances(cfg: SenderConfig, r: FileSender, n: nat)
    requires ValidSender(cfg, r) && cfg.windowSize == 1
    requires Awaiting(cfg, r, n) && n + 1 < LastBlock(cfg.file, cfg.blockSize)
    ensures Awaiting(cfg, Turn(cfg, r, R.Received(Ack(Wrap16(n + 1)), R.WriteOk)), n + 1)
  {
    hide IsInRange, Wrap16, LastBlock, Fill, BlocksUpTo;
    OneApart(n + 1);
    NextNumber(n + 1);
    var o := R.Received(Ack(Wrap16(n + 1)), R.WriteOk);
    var r1 := Receive(cfg, r, o);
    hide ValidSender;
    FillOnce(cfg, r1, n + 1);
    hide Awaiting;
  }

  lemma AtLeastOneBlock(cfg: SenderConfig)
    requires 1 <= cfg.blockSize
    ensures 1 <= LastBlock(cfg.file, cfg.blockSize)
  {
  }

  lemma FirstSent(cfg: SenderConfig, ring: seq<Slot>)
    requires ValidSender(cfg, InitialSender(ring)) && cfg.windowSize == 1
    ensures Awaiting(cfg, Fill(cfg, InitialSender(ring)), 0)
  {
    hide Fill, Awaiting;
    SmallNumber(1);
    AtLeastOneBlock(cfg);
    FillOnce(cfg, InitialSender(ring), 0);
  }

  lemma {:induction false} LockStepRun(cfg: SenderConfig, ring: seq<Slot>, n: nat)
    requires ValidSender(cfg, InitialSender(ring)) && cfg.windowSize == 1
    requires n < LastBlock(cfg.file, cfg.blockSize)
    ensures Awaiting(cfg, Run(cfg, ring, AcksUpTo(n)), n)
  {
    hide LastBlock, Awaiting, Turn, Fill, BlocksUpTo;
    if n == 0 {
      FirstSent(cfg, ring);
    } else {
      LockStepRun(cfg, ring, n - 1);
      assert AcksUpTo(n)[..|AcksUpTo(n)| - 1] == AcksUpTo(n - 1);
      AckAdvances(cfg, Run(cfg, ring, AcksUpTo(n - 1)), n - 1);
    }
  }

  /** What the acknowledgement of the last block leads to. */
  lemma LastAck(cfg: SenderConfig, r: FileSender)
    requires ValidSender(cfg, r) && cfg.windowSize == 1
    requires Awaiting(cfg, r, LastBlock(cfg.file, cfg.blockSize) - 1)
    ensures var last := LastBlock(cfg.file, cfg.blockSize);
            var r' := Turn(cfg, r, R.Received(Ack(Wrap16(last)), R.WriteOk));
            && r'.eof && r'.begin == r'.next && r'.sent == BlocksUpTo(cfg, last)
            && (EndsOnWrap(cfg) ==> r'.status == R.Running && r'.next == 0)
            && (!EndsOnWrap(cfg) ==> r'.status == R.Succeeded)
  {
    hide IsInRange, Wrap16, LastBlock, BlocksUpTo;
    var last: nat := LastBlock(cfg.file, cfg.blockSize);
    OneApart(last);
    NextNumber(last);
    WrapsToZero(last);
    hide ValidSender;
  }

  lemma AllAcknowledged(cfg: SenderConfig, ring: seq<Slot>)
    requires ValidSender(cfg, InitialSender(ring)) && cfg.windowSize == 1
    ensures var last := LastBlock(cfg.file, cfg.blockSize);
            var r := Run(cfg, ring, AcksUpTo(last));
            && r.eof && r.begin == r.next && r.sent == BlocksUpTo(cfg, last)
            && (EndsOnWrap(cfg) ==> r.status == R.Running && r.next == 0)
            && (!EndsOnWrap(cfg) ==> r.status == R.Succeeded)
  {
    hide LastBlock, Awaiting, Turn, EndsOnWrap, BlocksUpTo;
    var last: nat := LastBlock(cfg.file, cfg.blockSize);
    assert 1 <= last by { AtLeastOneBlock(cfg); }
    LockStepRun(cfg, ring, last - 1);
    assert AcksUpTo(last)[..|AcksUpTo(last)| - 1] == AcksUpTo(last - 1);
    LastAck(cfg, Run(cfg, ring, AcksUpTo(last - 1)));
  }

  /** With the window of one that write requests use, some sequence of results
      completes the transfer if and only if the number of the last block is not
      65535 modulo 65536. */
  lemma CompletesIff(cfg: SenderConfig, ring: seq<Slot>)
    requires ValidSender(cfg, InitialSender(ring)) && cfg.windowSize == 1
    ensures (exists script :: Run(cfg, ring, script).status == R.Succeeded) <==> !EndsOnWrap(cfg)
  {
    hide Run, EndsOnWrap, LastBlock;
    if EndsOnWrap(cfg) {
      forall script ensures Run(cfg, ring, script).status != R.Succeeded {
        NeverCompletes(cfg, ring, script);
      }
    } else {
      AllAcknowledged(cfg, ring);
    }
  }

  /** The run that gets stuck: every block of such a file, for instance one of
      65534 full blocks and an empty last one, is sent once and acknowledged;
      the sender goes on with an empty window, on which its retransmission loop
      would not end, and nothing it may receive completes the transfer. */
  lemma StuckAfterLastAck(cfg: SenderConfig, ring: seq<Slot>, more: seq<R.Outcome>)
    requires ValidSender(cfg, InitialSender(ring)) && cfg.windowSize == 1 && EndsOnWrap(cfg)
    ensures var last := LastBlock(cfg.file, cfg.blockSize);
            var r := Run(cfg, ring, AcksUpTo(last));
            && r.status == R.Running && r.eof && r.sent == BlocksUpTo(cfg, last)
            && (forall n: nat :: Turns(r.begin, r.next, n))
            && Run(cfg, ring, AcksUpTo(last) + more).status != R.Succeeded
  {
    hide Run, LastBlock, BlocksUpTo, EndsOnWrap;
    AllAcknowledged(cfg, ring);
    LoopEndsIff(Run(cfg, ring, AcksUpTo(LastBlock(cfg.file, cfg.blockSize))).begin,
                Run(cfg, ring, AcksUpTo(LastBlock(cfg.file, cfg.blockSize))).next);
    NeverCompletes(cfg, ring, AcksUpTo(LastBlock(cfg.file, cfg.blockSize)) + more);
  }

  lemma OffsetNextBlock(bs: nat, k: nat)
    ensures Offset(bs, k + 1) == Offset(bs, k) + bs
  {
  }

  lemma FileOf65535Blocks(cfg: SenderConfig)
    requires 1 <= cfg.blockSize && |cfg.file| == Offset(cfg.blockSize, 65534)
    ensures LastBlock(cfg.file, cfg.blockSize) == 65535 && EndsOnWrap(cfg)
  {
    var bs: nat := cfg.blockSize;
    LastBlockIsLast(cfg.file, bs);
    OffsetNextBlock(bs, 65534);
    LastBlockUnique(cfg.file, bs, 65535, LastBlock(cfg.file, bs));
    hide Offset, LastBlock;
  }
}
