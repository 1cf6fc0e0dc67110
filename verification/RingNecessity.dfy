/**
 The window of a transfer must fit the ring: where it does not, a round of
 retransmission carries a block under another number, and some file of the same
 length does not arrive as it is.
 */
module RingNecessity {
  import opened BlockNumbers
  import opened RingSlots
  import opened FileBlocks
  import opened Packets
  import opened Session
  import opened SessionJobs
  import opened GoBackN
  import opened GetTransfer
  import opened GetInvariant
  import opened GetSteps
  import opened GetTheorems
  import opened GetFlow
  import opened GetRefusal
  import opened GetCompletion
  import GS = GetSession
  import GR = GetResults
  import R = Receiver
  import SR = SessionRuns

  // ------------------------------------------------- what the kernel writes

  /** A read in progress writes the bytes of the file from its offset on. */
  predicate FromFile(g: GetConfig, y: System, t: Step)
  {
    t.KernelWrites? ==> y.pos + |t.bytes| <= |g.file| && t.bytes == g.file[y.pos..y.pos + |t.bytes|]
  }

  /** The kernel writes nothing but what it reads from the file. */
  predicate ReadsFile(g: GetConfig, ring: seq<Slot>, run: seq<Step>)
    requires ValidRing(g, ring) && ValidRun(g, ring, run)
  {
    run == [] ||
    var before := run[..|run| - 1];
    ReadsFile(g, ring, before) && FromFile(g, Exec(g, ring, before), run[|run| - 1])
  }

  /** Every read completes at once. */
  predicate WithoutWrites(run: seq<Step>)
  {
    forall t :: t in run ==> !t.KernelWrites?
  }

  lemma {:induction false} ReadsAtOnce(g: GetConfig, ring: seq<Slot>, run: seq<Step>)
    requires ValidRing(g, ring) && ValidRun(g, ring, run) && WithoutWrites(run)
    ensures ReadsFile(g, ring, run)
  {
    if run != [] {
      ReadsAtOnce(g, ring, run[..|run| - 1]);
    }
    hide ValidRing, Can, Next, Initial;
  }

  lemma ReadStep(g: GetConfig, ring: seq<Slot>, run: seq<Step>, t: Step)
    requires ValidRing(g, ring) && ValidRun(g, ring, run) && Can(g, Exec(g, ring, run), t)
    requires ReadsFile(g, ring, run) && FromFile(g, Exec(g, ring, run), t)
    ensures ValidRun(g, ring, run + [t]) && ReadsFile(g, ring, run + [t])
    ensures Exec(g, ring, run + [t]) == Next(g, Exec(g, ring, run), t)
  {
    hide ValidRing, Can, Next, Initial, FromFile;
    RunStep(g, ring, run, t);
    assert (run + [t])[..|run + [t]| - 1] == run;
  }

  // -------------------------------------------------------- blocks, counted

  /** The step ends a read with which the next block is sent. */
  predicate SendsOne(g: GetConfig, y: System, t: Step)
    requires Can(g, y, t)
  {
    t.ReadDone? && SendsBlock(y.c.s, ReadEvent(g, y, t.count))
  }

  /** Blocks sent so far, not counting retransmissions. */
  function BlocksSent(g: GetConfig, ring: seq<Slot>, run: seq<Step>): (n: nat)
    requires ValidRing(g, ring) && ValidRun(g, ring, run)
  {
    if run == [] then 0
    else
      var before := run[..|run| - 1];
      BlocksSent(g, ring, before) + if SendsOne(g, Exec(g, ring, before), run[|run| - 1]) then 1 else 0
  }

  lemma NextNumberStep(g: GetConfig, y: System, t: Step)
    requires Can(g, y, t)
    ensures Next(g, y, t).c.s.win.next == if SendsOne(g, y, t) then Wrap16(y.c.s.win.next + 1) else y.c.s.win.next
  {
    hide HandleEvent, React, Sends, Enabled, Wrap16, R.Step, SlotOf;
    match t
    case SessionEvent(e) => NextAfter(y.c, e);
    case ReadDone(count) => NextAfter(y.c, ReadEvent(g, y, count));
    case ReadFailed => NextAfter(y.c, DataAvailable(false, [], false));
    case PacketArrives => NextAfter(y.c, PacketReceived(FromPeer(y.toServer[0])));
    case _ =>
  }

  lemma StartsAtOne(g: GetConfig, ring: seq<Slot>)
    requires ValidRing(g, ring)
    ensures Initial(g, ring).c.s.win.next == Wrap16(1)
  {
    hide Perform, Sends;
  }

  /** The number of the next block is one more than the blocks sent. */
  lemma {:induction false} NextIsCount(g: GetConfig, ring: seq<Slot>, run: seq<Step>)
    requires ValidRing(g, ring) && ValidRun(g, ring, run)
    ensures Exec(g, ring, run).c.s.win.next == Wrap16(BlocksSent(g, ring, run) + 1)
  {
    hide ValidRing, Can, Next, Initial, SendsOne, Wrap16;
    if run == [] {
      StartsAtOne(g, ring);
    } else {
      var before := run[..|run| - 1];
      NextIsCount(g, ring, before);
      NextNumberStep(g, Exec(g, ring, before), run[|run| - 1]);
      NextNumber(BlocksSent(g, ring, before) + 1);
    }
  }

  lemma ShadowNextStep(g: GetConfig, y: System, h: Shadow, t: Step)
    requires Can(g, y, t)
    ensures ShadowNext(g, y, h, t).link.snd.next == h.link.snd.next + if SendsOne(g, y, t) then 1 else 0
  {
    hide HandleEvent, React, Sends, Enabled, R.Step, Exec, Wrap16;
  }

  lemma {:induction false} ShadowIsCount(g: GetConfig, ring: seq<Slot>, run: seq<Step>)
    requires ValidGet(g) && ValidRing(g, ring) && ValidRun(g, ring, run)
    ensures ShadowOf(g, ring, run).link.snd.next == BlocksSent(g, ring, run) + 1
  {
    hide ValidGet, ValidRing, Can, Next, Initial, SendsOne, ShadowNext;
    if run != [] {
      var before := run[..|run| - 1];
      ShadowIsCount(g, ring, before);
      ShadowNextStep(g, Exec(g, ring, before), ShadowOf(g, ring, before), run[|run| - 1]);
    }
  }

  // ------------------------------------------------- rounds of retransmission

  /** A time-out makes the session send its window of blocks again. */
  predicate ResendsData(g: GetConfig, y: System)
  {
    && Can(g, y, SessionEvent(Timeout(false)))
    && Retransmits(y.c.s, Timeout(false)) && !OackPending(y.c.s)
  }

  /** It sends the last blocks before block `n`, each with its own number and
      payload. */
  predicate SendsOwn(g: GetConfig, y: System, n: nat)
    requires ValidSession(y.c.s)
  {
    var ps := Sends(React(y.c.s, Timeout(false)).acts);
    && |ps| == WindowLength(y.c.s.win) < n
    && forall i :: 0 <= i < |ps| ==> ps[i] == DataOf(g, n - |ps| + i)
  }

  ghost predicate RoundsAreOwn(g: GetConfig, ring: seq<Slot>)
    requires ValidRing(g, ring)
  {
    forall run :: ValidRun(g, ring, run) && ReadsFile(g, ring, run) && ResendsData(g, Exec(g, ring, run)) ==>
      SendsOwn(g, Exec(g, ring, run), BlocksSent(g, ring, run) + 1)
  }

  lemma WireIsData(g: GetConfig, k: nat)
    requires 1 <= k
    ensures Wire(g, Block(k)) == DataOf(g, k)
  {
  }

  /** Where the ring fits, a round sends the blocks of the window. */
  lemma FittingRound(g: GetConfig, y: System, h: Shadow)
    requires ValidGet(g) && Inv(g, y, h) && ResendsData(g, y)
    ensures SendsOwn(g, y, h.link.snd.next)
  {
    hide Wire, ClientRel, RingRel, FileRel, SourceRel, TimerRel, RttRel, React, Sends, BlockOf, Wrap16, AcksInv, DataInv, LogInv;
    var snd := h.link.snd;
    SR.RoundSends(y.c.s);
    GS.RetransmissionOnWire(g, y.c.s, y.pos, h);
    GS.WindowLengthIs(h.link, y.c.s.win);
    var ps := Retransmission(y.c.s);
    forall i | 0 <= i < |ps| ensures ps[i] == DataOf(g, snd.next - |ps| + i) {
      assert ps[i] == Wire(g, Block(snd.begin + i));
      WireIsData(g, snd.begin + i);
    }
    hide Retransmission;
  }

  lemma FittingRounds(g: GetConfig, ring: seq<Slot>)
    requires ValidGet(g) && ValidRing(g, ring)
    ensures RoundsAreOwn(g, ring)
  {
    hide ValidGet, ValidRing, ValidRun, Exec, Inv, SendsOwn;
    forall run | ValidRun(g, ring, run) && ResendsData(g, Exec(g, ring, run))
      ensures SendsOwn(g, Exec(g, ring, run), BlocksSent(g, ring, run) + 1)
    {
      RunInv(g, ring, run);
      ShadowIsCount(g, ring, run);
      FittingRound(g, Exec(g, ring, run), ShadowOf(g, ring, run));
    }
    hide ResendsData;
  }

  /** A client that refuses the answer leaves the OACK unacknowledged: no block
      is sent at all. */
  lemma RefusedRounds(g: GetConfig, ring: seq<Slot>)
    requires Agreed(g) && ValidRing(g, ring) && !ClientAccepts(g) && !RingFits(g)
    ensures RoundsAreOwn(g, ring)
  {
    hide Agreed, RingFits, ValidRing, ClientAccepts, ValidRun, Exec, OackPending, SendsOwn;
    if !g.session.optionsRequired {
      WindowOfOneFits(g);
    }
    forall run | ValidRun(g, ring, run) ensures !ResendsData(g, Exec(g, ring, run)) {
      UnansweredRun(g, ring, run);
    }
  }

  lemma Wrapped(n: nat)
    ensures Wrap16(Wrap16(n) + 0) == Wrap16(n)
  {
  }

  /** A time-out of a window that is held: the oldest block is sent first. */
  lemma HeldRound(g: GetConfig, y: System, b: nat, n: nat)
    requires Held(g.session, y.c, b, n) && 1 <= g.session.retries
    ensures ResendsData(g, y)
    ensures var y' := Next(g, y, SessionEvent(Timeout(false)));
            && y'.client == y.client && y'.toServer == y.toServer
            && y'.toClient == y.toClient + Retransmission(y.c.s)
            && Sends(React(y.c.s, Timeout(false)).acts) == Retransmission(y.c.s) != []
            && Retransmission(y.c.s)[0] == StoredPacket(y.c.s, Wrap16(b))
  {
    hide React, HandleEvent, Sends, Wrap16, SlotOf, StoredPacket;
    Wrap16Injective(b, n);
    EmptyIsZero(y.c.s.win.begin, y.c.s.win.next);
    NotClosed(y.c);
    SR.RoundSends(y.c.s);
    Wrapped(b);
  }

  /** Block `n` has been read into the slot of block `b`, which is still in the window. */
  predicate Replaced(g: GetConfig, y: System, b: nat, n: nat)
  {
    && b < n && Held(g.session, y.c, b, n + 1)
    && y.c.s.ring[SlotOf(Wrap16(b), g.session.windowSize)].block == Wrap16(n)
  }

  lemma BeginNumber(begin: uint16, n: nat)
    ensures Wrap16(n - Wrap16(Wrap16(n) - begin)) == begin
  {
    var q, r, d := n / WRAP, n % WRAP, (n % WRAP - begin) % WRAP;
    if r >= begin {
      DivModUnique(r - begin, WRAP, 0, r - begin);
      DivModUnique(n - d, WRAP, q, begin);
    } else {
      DivModUnique(r - begin, WRAP, -1, r - begin + WRAP);
      DivModUnique(n - d, WRAP, q - 1, begin);
    }
  }

  /** The next round sends block `n` in place of block `b`. */
  lemma ReplacedRound(g: GetConfig, y: System, b: nat, n: nat, count: nat)
    requires Replaced(g, y, b, n) && 1 <= g.session.retries && y.c.s.win.next == Wrap16(count)
    ensures ResendsData(g, y) && !SendsOwn(g, y, count)
  {
    hide React, Sends, Wrap16, ResendsData, Retransmission, SlotOf, BlockOf;
    HeldRound(g, y, b, n + 1);
    Wrap16Injective(b, n);
    if WindowLength(y.c.s.win) < count {
      BeginNumber(y.c.s.win.begin, count);
    }
  }

  // ------------------------------------------------ a window that fills up

  /** Block `b` still has its slot to itself. */
  predicate Owns(g: GetConfig, y: System, b: nat)
    requires ValidConfig(g.session) && |y.c.s.ring| == g.session.windowSize
  {
    y.c.s.ring[SlotOf(Wrap16(b), g.session.windowSize)].block == Wrap16(b)
  }

  /** Blocks `b` to `n - 1` were sent and lost. */
  predicate Lost(g: GetConfig, y: System, b: nat, n: nat)
  {
    Flow(g, y, b, n) && y.toClient == [] && (b < n ==> Owns(g, y, b))
  }

  /** One block more is read, sent and lost. */
  function OneLost(g: GetConfig): (run: seq<Step>)
  {
    [ReadDone(g.session.blockSize), LoseToClient(0)]
  }

  function BlocksLost(g: GetConfig, n: nat): (run: seq<Step>)
    ensures WithoutWrites(run)
  {
    if n == 0 then [] else BlocksLost(g, n - 1) + OneLost(g)
  }

  lemma InWindow(g: GetConfig, y: System, b: nat, n: nat)
    requires Sending(g, y, b, n)
    ensures ValidConfig(g.session) && 1 <= b <= n && |y.c.s.ring| == g.session.windowSize
  {
  }

  lemma LoseOne(g: GetConfig, ring: seq<Slot>, run: seq<Step>, b: nat, n: nat)
    requires ValidRing(g, ring) && ValidRun(g, ring, run) && Lost(g, Exec(g, ring, run), b, n)
    requires n < b + g.session.windowSize && n < Last(g)
    requires b < n ==> RingIndex(b, g.session.windowSize) != RingIndex(n, g.session.windowSize)
    ensures ValidRun(g, ring, run + OneLost(g)) && Lost(g, Exec(g, ring, run + OneLost(g)), b, n + 1)
  {
    hide ValidRing, Can, Next, ValidRun, Exec, DataOf, Waiting, LastBlock, SlotOf, Wrap16, Streaming;
    var y, t := Exec(g, ring, run), ReadDone(g.session.blockSize);
    InWindow(g, y, b, n);
    ReadBlock(g, y, b, n);
    BlockLost(g, Next(g, y, t), b, n + 1);
    RunStep(g, ring, run, t);
    RunStep(g, ring, run + [t], LoseToClient(0));
    assert run + [t] + [LoseToClient(0)] == run + OneLost(g);
    hide Flow;
  }

  /** No block between the two is put into the slot of the first. */
  predicate FirstToShare(w: nat, b: nat, n: nat)
    requires 1 <= w
  {
    forall k :: b < k < n ==> RingIndex(b, w) != RingIndex(k, w)
  }

  lemma {:induction false} LoseMany(g: GetConfig, ring: seq<Slot>, run: seq<Step>, b: nat, n: nat)
    requires ValidRing(g, ring) && ValidRun(g, ring, run) && Lost(g, Exec(g, ring, run), b, b)
    requires n < g.session.windowSize && b + n <= Last(g) && FirstToShare(g.session.windowSize, b, b + n)
    ensures ValidRun(g, ring, run + BlocksLost(g, n)) && Lost(g, Exec(g, ring, run + BlocksLost(g, n)), b, b + n)
  {
    hide ValidRing, ValidRun, Exec, Lost, OneLost, LastBlock, RingIndex;
    if n == 0 {
      assert run + BlocksLost(g, 0) == run;
    } else {
      LoseMany(g, ring, run, b, n - 1);
      LoseOne(g, ring, run + BlocksLost(g, n - 1), b, b + n - 1);
      assert run + BlocksLost(g, n - 1) + OneLost(g) == run + BlocksLost(g, n);
    }
  }

  lemma NothingLost(g: GetConfig, y: System, b: nat)
    requires Flow(g, y, b, b) && y.toClient == []
    ensures Lost(g, y, b, b)
  {
  }

  lemma {:induction false} DeliveredAtOnce(g: GetConfig, n: nat)
    ensures WithoutWrites(FirstBlocksDelivered(g, n))
  {
    if n > 0 {
      DeliveredAtOnce(g, n - 1);
    }
  }

  /** All blocks before `b` are delivered, those from `b` to `n - 1` lost. */
  function LosingRun(g: GetConfig, b: nat, n: nat): (run: seq<Step>)
    requires 1 <= b <= n
    ensures WithoutWrites(run)
  {
    DeliveredAtOnce(g, b - 1);
    FirstBlocksDelivered(g, b - 1) + BlocksLost(g, n - b)
  }

  /** Two blocks of the transfer that one window may hold share a slot. */
  predicate SharesSlot(g: GetConfig, b: nat, n: nat)
  {
    && Agreed(g) && 1 <= b < n < b + g.session.windowSize && n <= Last(g)
    && RingIndex(b, g.session.windowSize) == RingIndex(n, g.session.windowSize)
    && FirstToShare(g.session.windowSize, b, n)
  }

  lemma LosingRunValid(g: GetConfig, ring: seq<Slot>, b: nat, n: nat)
    requires ValidRing(g, ring) && ClientAccepts(g) && SharesSlot(g, b, n)
    ensures ValidRun(g, ring, LosingRun(g, b, n)) && ReadsFile(g, ring, LosingRun(g, b, n))
    ensures Lost(g, Exec(g, ring, LosingRun(g, b, n)), b, n)
  {
    hide Agreed, ValidRing, ClientAccepts, ValidRun, Exec, LastBlock, Flow, FirstBlocksDelivered, BlocksLost, Lost, FirstToShare;
    BlocksDelivered(g, ring, b - 1);
    var run := FirstBlocksDelivered(g, b - 1);
    NothingLost(g, Exec(g, ring, run), b);
    LoseMany(g, ring, run, b, n - b);
    ReadsAtOnce(g, ring, LosingRun(g, b, n));
    hide ReadsFile, WithoutWrites;
  }

  // --------------------------------------------- a round with a wrong number

  function ReplacingReads(g: GetConfig, n: nat): (run: seq<Step>)
    requires ValidConfig(g.session)
    ensures WithoutWrites(run)
  {
    if n < Last(g) then [ReadDone(g.session.blockSize)] else LastReads(g)
  }

  lemma StreamingHeld(g: GetConfig, y: System, b: nat, n: nat)
    requires Sending(g, y, b, n) && b < n
    ensures Held(g.session, y.c, b, n)
  {
  }

  /** After block `n` has been read its number stands in the slot of block `b`. */
  lemma ReadReplaces(g: GetConfig, ring: seq<Slot>, run: seq<Step>, b: nat, n: nat)
    requires ValidRing(g, ring) && ValidRun(g, ring, run) && Lost(g, Exec(g, ring, run), b, n)
    requires SharesSlot(g, b, n)
    ensures ValidRun(g, ring, run + ReplacingReads(g, n))
    ensures Replaced(g, Exec(g, ring, run + ReplacingReads(g, n)), b, n)
  {
    hide Agreed, ValidRing, Can, Next, ValidRun, Exec, DataOf, Waiting, LastBlock, SlotOf, Wrap16, Streaming, Held, LastReads, FirstToShare;
    var y, t := Exec(g, ring, run), ReadDone(g.session.blockSize);
    InWindow(g, y, b, n);
    if n < Last(g) {
      ReadBlock(g, y, b, n);
      RunStep(g, ring, run, t);
      StreamingHeld(g, Next(g, y, t), b, n + 1);
    } else {
      LastRead(g, ring, run, b);
    }
  }

  lemma SharedSlotReplaces(g: GetConfig, ring: seq<Slot>, b: nat, n: nat)
    requires ValidRing(g, ring) && ClientAccepts(g) && SharesSlot(g, b, n) && 1 <= g.session.retries
    ensures !RoundsAreOwn(g, ring)
  {
    hide ValidRing, ClientAccepts, ValidRun, Exec, LastBlock, Lost, Replaced, ResendsData, SendsOwn, LosingRun, RingIndex,
      FirstToShare, ReplacingReads, ReadsFile, Wrap16;
    var run := LosingRun(g, b, n) + ReplacingReads(g, n);
    LosingRunValid(g, ring, b, n);
    ReadReplaces(g, ring, LosingRun(g, b, n), b, n);
    ReadsAtOnce(g, ring, run);
    NextIsCount(g, ring, run);
    ReplacedRound(g, Exec(g, ring, run), b, n, BlocksSent(g, ring, run) + 1);
  }

  // ------------------------------------------------ blocks with wrong bytes

  /** Block `n`, or as much of block `b`, has been written to the slot of block `b`. */
  predicate Spoilt(g: GetConfig, y: System, b: nat, n: nat)
  {
    && b < n && Flow(g, y, b, n) && y.toClient == [] && Owns(g, y, b)
    && (var x, data := BlockOf(g.file, g.session.blockSize, n), y.c.s.ring[SlotOf(Wrap16(b), g.session.windowSize)].data;
        |x| <= |data| && data[..|x|] == x)
  }

  /** While block `n` is being read, its bytes reach the slot of block `b`. */
  lemma ReadSpoils(g: GetConfig, y: System, b: nat, n: nat)
    requires Lost(g, y, b, n) && SharesSlot(g, b, n)
    ensures var t := KernelWrites(BlockOf(g.file, g.session.blockSize, n));
            Can(g, y, t) && FromFile(g, y, t) && Spoilt(g, Next(g, y, t), b, n)
  {
    hide Wrap16, SlotOf, Waiting, Offset, LastBlock, BlockOf, FirstToShare, FirstBlocks;
    BlockIsThere(g, n);
  }

  /** The client takes the wrong bytes for block `b`. */
  lemma WrongBytesTaken(g: GetConfig, y: System, b: nat, payload: seq<byte>)
    requires ValidConfig(g.session) && Waiting(g, y.client, b) && b < Last(g)
    requires y.toClient != [] && y.toClient[0] == Data(Wrap16(b), payload)
    requires |payload| == g.session.blockSize && payload != BlockOf(g.file, g.session.blockSize, b)
    ensures var t := ClientReceives(R.WriteOk);
            Can(g, y, t) && !(Next(g, y, t).client.out <= g.file)
  {
    hide Wrap16, LastBlock;
    var bs: nat, p := g.session.blockSize, Offset(g.session.blockSize, b - 1);
    BlockIsThere(g, b);
    var out := FirstBlocks(g.file, bs, b - 1) + payload;
    assert |FirstBlocks(g.file, bs, b - 1)| == p;
    assert Next(g, y, ClientReceives(R.WriteOk)).client.out == out;
    assert out[p..p + bs] == payload;
    hide Offset, FirstBlocks, BlockOf;
  }

  lemma SpoiltTaken(g: GetConfig, y: System, b: nat, n: nat)
    requires Spoilt(g, y, b, n) && b < Last(g) && 1 <= g.session.retries
    requires !(BlockOf(g.file, g.session.blockSize, n) <= BlockOf(g.file, g.session.blockSize, b))
    ensures var t := SessionEvent(Timeout(false));
            && Can(g, y, t)
            && (var y1 := Next(g, y, t);
                Can(g, y1, ClientReceives(R.WriteOk)) && !(Next(g, y1, ClientReceives(R.WriteOk)).client.out <= g.file))
  {
    hide Next, Can, Wrap16, SlotOf, LastBlock, Waiting, BlockOf, Retransmission, React, Sends;
    StreamingHeld(g, y, b, n);
    HeldRound(g, y, b, n);
    var p := StoredPacket(y.c.s, Wrap16(b));
    assert y.toClient + Retransmission(y.c.s) == Retransmission(y.c.s);
    WrongBytesTaken(g, Next(g, y, SessionEvent(Timeout(false))), b, p.payload);
  }

  /** Block `n` is being read when the time-out comes. */
  function SpoilingRun(g: GetConfig, b: nat, n: nat): (run: seq<Step>)
    requires 1 <= b <= n
  {
    LosingRun(g, b, n)
    + [KernelWrites(BlockOf(g.file, g.session.blockSize, n))] + [SessionEvent(Timeout(false))] + [ClientReceives(R.WriteOk)]
  }

  /** Where two blocks of one window share a slot and the later one is not the
      beginning of the earlier one, the file does not arrive as it is. */
  lemma DifferentBlocksSpoil(g: GetConfig, ring: seq<Slot>, b: nat, n: nat)
    requires ValidRing(g, ring) && ClientAccepts(g) && SharesSlot(g, b, n) && 1 <= g.session.retries
    requires !(BlockOf(g.file, g.session.blockSize, n) <= BlockOf(g.file, g.session.blockSize, b))
    ensures ValidRun(g, ring, SpoilingRun(g, b, n)) && ReadsFile(g, ring, SpoilingRun(g, b, n))
    ensures !(Exec(g, ring, SpoilingRun(g, b, n)).client.out <= g.file)
  {
    hide ValidRing, ClientAccepts, Can, Next, ValidRun, Exec, Lost, Spoilt, BlockOf, LastBlock, RingIndex, ReadsFile, LosingRun,
      FirstToShare;
    var run := LosingRun(g, b, n);
    var t, u, v := KernelWrites(BlockOf(g.file, g.session.blockSize, n)), SessionEvent(Timeout(false)), ClientReceives(R.WriteOk);
    LosingRunValid(g, ring, b, n);
    var y := Exec(g, ring, run);
    ReadSpoils(g, y, b, n);
    SpoiltTaken(g, Next(g, y, t), b, n);
    ReadStep(g, ring, run, t);
    ReadStep(g, ring, run + [t], u);
    ReadStep(g, ring, run + [t] + [u], v);
  }

  // ------------------------------------------- the last block in a shared slot

  /** Blocks before `n` were sent and received, and the session does not know of
      those from `b` on. */
  predicate Unheard(g: GetConfig, y: System, b: nat, n: nat)
  {
    Sending(g, y, b, n) && Waiting(g, y.client, n) && y.toClient == []
  }

  /** One block more is delivered, and its acknowledgement lost. */
  function OneUnheard(g: GetConfig): (run: seq<Step>)
  {
    [ReadDone(g.session.blockSize), ClientReceives(R.WriteOk), LoseToServer(0)]
  }

  function BlocksUnheard(g: GetConfig, n: nat): (run: seq<Step>)
    ensures WithoutWrites(run)
  {
    if n == 0 then [] else BlocksUnheard(g, n - 1) + OneUnheard(g)
  }

  lemma AnswerLost(g: GetConfig, y: System, b: nat, n: nat)
    requires Sending(g, y, b, n + 1) && n < Last(g) && Waiting(g, y.client, n) && y.toClient == [DataOf(g, n)]
    ensures Can(g, y, ClientReceives(R.WriteOk))
    ensures var y1 := Next(g, y, ClientReceives(R.WriteOk));
            Can(g, y1, LoseToServer(0)) && Unheard(g, Next(g, y1, LoseToServer(0)), b, n + 1)
  {
    hide R.Step, DataOf, LastBlock, Streaming, Wrap16, FirstBlocks, Offset;
    InWindow(g, y, b, n + 1);
    BlockReceived(g, y.client, n);
    var y1 := Next(g, y, ClientReceives(R.WriteOk));
    assert y1.toServer == [Ack(Wrap16(n))];
  }

  lemma OneMoreUnheard(g: GetConfig, ring: seq<Slot>, run: seq<Step>, b: nat, n: nat)
    requires ValidRing(g, ring) && ValidRun(g, ring, run) && Unheard(g, Exec(g, ring, run), b, n)
    requires n < b + g.session.windowSize && n < Last(g)
    ensures ValidRun(g, ring, run + OneUnheard(g)) && Unheard(g, Exec(g, ring, run + OneUnheard(g)), b, n + 1)
  {
    hide ValidRing, Can, Next, ValidRun, Exec, DataOf, Waiting, LastBlock, SlotOf, Wrap16, Streaming;
    var y, t, u, v := Exec(g, ring, run), ReadDone(g.session.blockSize), ClientReceives(R.WriteOk), LoseToServer(0);
    InWindow(g, y, b, n);
    ReadBlock(g, y, b, n);
    AnswerLost(g, Next(g, y, t), b, n);
    RunStep(g, ring, run, t);
    RunStep(g, ring, run + [t], u);
    RunStep(g, ring, run + [t] + [u], v);
    assert run + [t] + [u] + [v] == run + OneUnheard(g);
    hide Sending;
  }

  lemma {:induction false} ManyUnheard(g: GetConfig, ring: seq<Slot>, run: seq<Step>, b: nat, n: nat)
    requires ValidRing(g, ring) && ValidRun(g, ring, run) && Unheard(g, Exec(g, ring, run), b, b)
    requires n < g.session.windowSize && b + n <= Last(g)
    ensures ValidRun(g, ring, run + BlocksUnheard(g, n))
    ensures Unheard(g, Exec(g, ring, run + BlocksUnheard(g, n)), b, b + n)
  {
    hide ValidRing, ValidRun, Exec, Unheard, OneUnheard, LastBlock;
    if n == 0 {
      assert run + BlocksUnheard(g, 0) == run;
    } else {
      ManyUnheard(g, ring, run, b, n - 1);
      OneMoreUnheard(g, ring, run + BlocksUnheard(g, n - 1), b, b + n - 1);
      assert run + BlocksUnheard(g, n - 1) + OneUnheard(g) == run + BlocksUnheard(g, n);
    }
  }

  /** Every block but the last is delivered, but the session hears of none from
      `b` on; the last block is lost. */
  function UnheardRun(g: GetConfig, b: nat): (run: seq<Step>)
    requires ValidConfig(g.session) && 1 <= b <= Last(g)
    ensures WithoutWrites(run)
  {
    DeliveredAtOnce(g, b - 1);
    FirstBlocksDelivered(g, b - 1) + BlocksUnheard(g, Last(g) - b) + LastReads(g) + [LoseToClient(0)]
  }

  /** The last block is in the slot of block `b`, and the client waits for it. */
  predicate LastInPlace(g: GetConfig, y: System, b: nat)
    requires ValidConfig(g.session)
  {
    && b < Last(g) && Held(g.session, y.c, b, Last(g) + 1)
    && y.c.s.src.lastPacket == Wrap16(Last(g))
    && y.c.s.ring[SlotOf(Wrap16(b), g.session.windowSize)].block == Wrap16(Last(g))
    && Waiting(g, y.client, Last(g)) && y.toClient == []
  }

  lemma LastLost(g: GetConfig, y: System, b: nat)
    requires ValidConfig(g.session) && SharesSlot(g, b, Last(g)) && AllSent(g, y, b) && Waiting(g, y.client, Last(g))
    ensures Can(g, y, LoseToClient(0)) && LastInPlace(g, Next(g, y, LoseToClient(0)), b)
  {
    hide Held, Waiting, LastBlock, SlotOf, Wrap16, FirstToShare, DataOf;
  }

  lemma NothingUnheard(g: GetConfig, y: System, b: nat)
    requires Flow(g, y, b, b) && y.toClient == []
    ensures Unheard(g, y, b, b)
  {
  }

  lemma UnheardLast(g: GetConfig, y: System, b: nat)
    requires ValidConfig(g.session) && Unheard(g, y, b, Last(g)) && Last(g) < b + g.session.windowSize
    ensures AtLast(g, y, b) && Waiting(g, y.client, Last(g))
  {
    hide LastBlock, Streaming, Waiting;
  }

  lemma UnheardRunValid(g: GetConfig, ring: seq<Slot>, b: nat)
    requires ValidRing(g, ring) && ClientAccepts(g) && ValidConfig(g.session) && SharesSlot(g, b, Last(g))
    ensures ValidRun(g, ring, UnheardRun(g, b)) && ReadsFile(g, ring, UnheardRun(g, b))
    ensures LastInPlace(g, Exec(g, ring, UnheardRun(g, b)), b)
  {
    hide ValidRing, ClientAccepts, Can, Next, ValidRun, Exec, LastBlock, Flow, FirstBlocksDelivered, BlocksUnheard, LastReads,
      Unheard, AtLast, AllSent, LastInPlace, RingIndex, FirstToShare, Waiting;
    BlocksDelivered(g, ring, b - 1);
    var run := FirstBlocksDelivered(g, b - 1);
    NothingUnheard(g, Exec(g, ring, run), b);
    ManyUnheard(g, ring, run, b, Last(g) - b);
    var run' := run + BlocksUnheard(g, Last(g) - b);
    UnheardLast(g, Exec(g, ring, run'), b);
    LastRead(g, ring, run', b);
    LastLost(g, Exec(g, ring, run' + LastReads(g)), b);
    RunStep(g, ring, run' + LastReads(g), LoseToClient(0));
    ReadsAtOnce(g, ring, UnheardRun(g, b));
    hide ReadsFile, WithoutWrites;
  }

  /** A whole block in place of the short last one makes the output too long. */
  lemma LongBlockTaken(g: GetConfig, y: System, payload: seq<byte>)
    requires ValidConfig(g.session) && Waiting(g, y.client, Last(g))
    requires y.toClient != [] && y.toClient[0] == Data(Wrap16(Last(g)), payload)
    requires |payload| == g.session.blockSize
    ensures var t := ClientReceives(R.WriteOk);
            Can(g, y, t) && !(Next(g, y, t).client.out <= g.file)
  {
    hide Wrap16, LastBlock;
    AtLeastOne(g);
    BlockIsThere(g, Last(g));
    assert Next(g, y, ClientReceives(R.WriteOk)).client.out == FirstBlocks(g.file, g.session.blockSize, Last(g) - 1) + payload;
    hide Offset, BlockOf;
  }

  lemma LastInPlaceTaken(g: GetConfig, y: System, b: nat)
    requires ValidConfig(g.session) && LastInPlace(g, y, b) && 1 <= g.session.retries
    ensures var t := SessionEvent(Timeout(false));
            && Can(g, y, t)
            && (var y1 := Next(g, y, t);
                Can(g, y1, ClientReceives(R.WriteOk)) && !(Next(g, y1, ClientReceives(R.WriteOk)).client.out <= g.file))
  {
    hide Next, Can, Wrap16, SlotOf, LastBlock, Waiting, Retransmission, React, Sends;
    HeldRound(g, y, b, Last(g) + 1);
    Wrap16Injective(b, Last(g));
    var p := StoredPacket(y.c.s, Wrap16(b));
    assert y.toClient + Retransmission(y.c.s) == Retransmission(y.c.s);
    LongBlockTaken(g, Next(g, y, SessionEvent(Timeout(false))), p.payload);
  }

  function OverrunningRun(g: GetConfig, b: nat): (run: seq<Step>)
    requires ValidConfig(g.session) && 1 <= b <= Last(g)
  {
    UnheardRun(g, b) + [SessionEvent(Timeout(false))] + [ClientReceives(R.WriteOk)]
  }

  /** Where the last block shares a slot with another block of its window, no
      file of that length arrives as it is: a time-out sends the earlier slot as
      a whole block under the last number. */
  lemma SharedLastBlockSpoils(g: GetConfig, ring: seq<Slot>, b: nat)
    requires ValidRing(g, ring) && ClientAccepts(g) && ValidConfig(g.session) && SharesSlot(g, b, Last(g))
    requires 1 <= g.session.retries
    ensures ValidRun(g, ring, OverrunningRun(g, b)) && ReadsFile(g, ring, OverrunningRun(g, b))
    ensures !(Exec(g, ring, OverrunningRun(g, b)).client.out <= g.file)
  {
    hide ValidRing, ClientAccepts, Can, Next, ValidRun, Exec, LastInPlace, LastBlock, RingIndex, ReadsFile, UnheardRun, FirstToShare;
    var run, u, v := UnheardRun(g, b), SessionEvent(Timeout(false)), ClientReceives(R.WriteOk);
    UnheardRunValid(g, ring, b);
    LastInPlaceTaken(g, Exec(g, ring, run), b);
    ReadStep(g, ring, run, u);
    ReadStep(g, ring, run + [u], v);
  }

  // ------------------------------------------------------------------ results

  /** Two blocks that share a slot, if any do: the first block of a turn of the
      counter, and an earlier one. */
  function Shared(w: nat): (b: nat)
    requires 1 <= w
    ensures 1 <= b
  {
    if w <= WRAP then WRAP + 1 - WRAP % w else 1
  }

  lemma SharedSlot(w: nat)
    requires 1 <= w < WRAP && WRAP % w != 0
    ensures Shared(w) < WRAP + 1 < Shared(w) + w
    ensures RingIndex(Shared(w), w) == RingIndex(WRAP + 1, w)
    ensures FirstToShare(w, Shared(w), WRAP + 1)
  {
    hide RingIndex, Wrap16;
    var c := WRAP % w;
    assert WRAP == w * (WRAP / w) + c;
    IndexBeforeEdge(WRAP, c);
    DivModUnique(WRAP - c, w, WRAP / w, 0);
    DivModUnique(0, w, 0, 0);
    SlotUnfold(WRAP + 1 - c, w);
    IndexAfterEdge(WRAP, 0);
    SlotUnfold(WRAP + 1, w);
    forall k | Shared(w) < k < WRAP + 1 ensures RingIndex(Shared(w), w) != RingIndex(k, w) {
      SlotsDistinctWhenRingSafe(Shared(w), k, w, WRAP);
    }
  }

  lemma UnfitShares(g: GetConfig)
    requires Agreed(g) && !RingFits(g)
    ensures 1 <= g.session.retries && SharesSlot(g, Shared(g.session.windowSize), WRAP + 1)
  {
    hide Shared, RingIndex, FirstToShare, LastBlock;
    SharedSlot(g.session.windowSize);
  }

  /** Every block sent again carries its own number and payload, in every run,
      if and only if the ring holds every window, or nothing is sent again: there
      is no retry, or the client does not accept the answer. */
  lemma RoundsAreOwnIff(g: GetConfig, ring: seq<Slot>)
    requires Agreed(g) && ValidRing(g, ring)
    ensures RoundsAreOwn(g, ring) <==> RingFits(g) || !ClientAccepts(g)
  {
    hide ClientAccepts, RoundsAreOwn, SharesSlot, Shared, RingFits;
    if RingFits(g) {
      FittingRounds(g, ring);
    } else if !ClientAccepts(g) {
      RefusedRounds(g, ring);
    } else {
      UnfitShares(g);
      SharedSlotReplaces(g, ring, Shared(g.session.windowSize), WRAP + 1);
    }
  }

  ghost predicate Arrives(g: GetConfig, ring: seq<Slot>)
    requires ValidRing(g, ring)
  {
    forall run :: ValidRun(g, ring, run) && ReadsFile(g, ring, run) ==> Exec(g, ring, run).client.out <= g.file
  }

  /** The same transfer of another file. */
  function With(g: GetConfig, file: seq<byte>): (g': GetConfig)
  {
    g.(file := file)
  }

  ghost predicate FilesArrive(g: GetConfig, ring: seq<Slot>)
    requires ValidRing(g, ring)
  {
    forall file | |file| == |g.file| :: Arrives(With(g, file), ring)
  }

  lemma FittingFileArrives(g: GetConfig, ring: seq<Slot>)
    requires Agreed(g) && ValidRing(g, ring) && (RingFits(g) || !ClientAccepts(g))
    ensures Arrives(g, ring)
  {
    hide Agreed, ValidRing, ClientAccepts, ValidRun, Exec, RingFits, ReadsFile;
    forall run | ValidRun(g, ring, run) ensures Exec(g, ring, run).client.out <= g.file {
      if RingFits(g) {
        GR.GetSafety(g, ring, run);
      } else {
        RefusingRun(g, ring, run);
      }
    }
  }

  /** A file in which only one byte is set. */
  function Marked(length: nat, p: nat): (file: seq<byte>)
    ensures |file| == length
  {
    seq(length, i => if i == p then 1 else 0)
  }

  lemma MarkDiffers(g: GetConfig, b: nat, n: nat)
    requires ValidConfig(g.session) && 1 <= b < n < Last(g)
    requires g.file == Marked(|g.file|, Offset(g.session.blockSize, b - 1))
    ensures !(BlockOf(g.file, g.session.blockSize, n) <= BlockOf(g.file, g.session.blockSize, b))
  {
    hide LastBlock, BlockOf;
    var bs: nat := g.session.blockSize;
    BlockIsThere(g, b);
    BlockIsThere(g, n);
    OffsetMonotonic(bs, b, n - 1);
    assert BlockOf(g.file, bs, b)[0] == g.file[Offset(bs, b - 1)] == 1;
    assert BlockOf(g.file, bs, n)[0] == g.file[Offset(bs, n - 1)] == 0;
    hide Offset;
  }

  lemma SameLength(g: GetConfig, file: seq<byte>, ring: seq<Slot>)
    requires Agreed(g) && ValidRing(g, ring) && |file| == |g.file|
    ensures var g' := With(g, file);
            && Agreed(g') && ValidRing(g', ring) && Last(g') == Last(g)
            && (RingFits(g') <==> RingFits(g)) && (ClientAccepts(g') <==> ClientAccepts(g))
            && (forall b, n :: SharesSlot(g, b, n) ==> SharesSlot(g', b, n))
  {
    hide RingIndex, FirstToShare;
  }

  lemma UnfitFile(g: GetConfig, ring: seq<Slot>)
    requires Agreed(g) && ValidRing(g, ring) && !RingFits(g) && ClientAccepts(g)
    ensures !FilesArrive(g, ring)
  {
    hide ValidRing, ClientAccepts, RingFits, Shared, ValidRun, Exec, ReadsFile, LastBlock, RingIndex, FirstToShare, SpoilingRun,
      OverrunningRun, Marked, Offset, BlockOf;
    var b := Shared(g.session.windowSize);
    UnfitShares(g);
    if Last(g) == WRAP + 1 {
      SharedLastBlockSpoils(g, ring, b);
      assert With(g, g.file) == g;
      assert !Arrives(With(g, g.file), ring);
    } else {
      var file := Marked(|g.file|, Offset(g.session.blockSize, b - 1));
      var g' := With(g, file);
      SameLength(g, file, ring);
      MarkDiffers(g', b, WRAP + 1);
      DifferentBlocksSpoil(g', ring, b, WRAP + 1);
      assert !Arrives(With(g, file), ring);
    }
  }

  /** Every file of a length arrives as it is, in every run, if and only if the
      ring holds every window of that length, or nothing is sent again. */
  lemma FilesArriveIff(g: GetConfig, ring: seq<Slot>)
    requires Agreed(g) && ValidRing(g, ring)
    ensures FilesArrive(g, ring) <==> RingFits(g) || !ClientAccepts(g)
  {
    hide Agreed, ClientAccepts, RingFits, Arrives, SharesSlot;
    if RingFits(g) || !ClientAccepts(g) {
      forall file | |file| == |g.file| ensures Arrives(With(g, file), ring) {
        SameLength(g, file, ring);
        FittingFileArrives(With(g, file), ring);
      }
    } else {
      UnfitFile(g, ring);
    }
  }
}
