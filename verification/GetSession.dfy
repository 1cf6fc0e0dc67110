/**
 Each handler of the session, seen as a step of the Go-Back-N link.
 */
module GetSession {
  import opened BlockNumbers
  import opened RingSlots
  import opened FileBlocks
  import opened Packets
  import opened Session
  import opened SessionJobs
  import opened GoBackN
  import opened GetTransfer
  import opened GetInvariant

  // ------------------------------------------------------- 16-bit tests

  lemma WrapOfDifference(n: int)
    requires 0 <= n <= WRAP
    ensures Wrap16(n) == if n == WRAP then 0 else n
  {
  }

  lemma WrapTurns(x: int, turns: int)
    ensures Wrap16(x + WRAP * turns) == Wrap16(x)
  {
    DivModUnique(x + WRAP * turns, WRAP, x / WRAP + turns, x % WRAP);
  }

  lemma WrapAdd(m: int, n: int)
    ensures Wrap16(Wrap16(m) + n) == Wrap16(m + n) && Wrap16(m + Wrap16(n)) == Wrap16(m + n)
  {
    WrapTurns(Wrap16(m) + n, m / WRAP);
    WrapTurns(m + Wrap16(n), n / WRAP);
    assert m == Wrap16(m) + WRAP * (m / WRAP) && n == Wrap16(n) + WRAP * (n / WRAP);
  }

  /** `should_fetch_data` asks whether the window has room. */
  lemma FetchTest(begin: nat, next: nat, w: uint16)
    requires begin <= next <= begin + w && 1 <= w
    ensures IsInRange(Wrap16(next), Wrap16(begin), Wrap16(Wrap16(begin) + w - 1)) <==> next < begin + w
  {
    hide IsInRange, Wrap16;
    WrapAdd(begin, w - 1);
    IsInRangeMeasuresDistance(next, begin, begin + w);
    WrapOfDifference(next - begin);
  }

  lemma WrapBelow(n: int)
    requires -WRAP <= n < 0
    ensures Wrap16(n) == n + WRAP
  {
  }

  /** An acknowledgement that FIFO delivery allows is accepted exactly when it
      acknowledges something, or the window is empty. */
  lemma AckTest(begin: nat, next: nat, a: nat, low: nat)
    requires begin <= low <= next < begin + WRAP && begin <= a + 1 && a < next
    ensures IsInRange(Wrap16(a), Wrap16(low), Wrap16(Wrap16(next) - 1)) <==> low <= a || low == next
  {
    hide IsInRange, Wrap16;
    WrapAdd(next, -1);
    IsInRangeMeasuresDistance(a, low, next);
    if a < low {
      WrapBelow(a - low);
    } else {
      SmallNumber(a - low);
    }
  }

  // ------------------------------------------------------------- fetching

  lemma FetchKeeps(g: GetConfig, s: Session, pos: nat, h: Shadow)
    requires LinkInv(h.link) && SessionRel(g, s, pos, h) && ShouldFetch(s)
    ensures SessionRel(g, Fetch(s), pos, h)
  {
    var l := h.link;
    FetchTest(l.snd.begin, l.snd.next, s.cfg.windowSize);
    assert s.win.begin == Wrap16(l.snd.begin) && s.win.next == Wrap16(l.snd.next);
    assert Have(Fetch(s).src) == Have(s.src);
  }

  // ------------------------------------------------------ acknowledgements

  /** The session after an acknowledgement, in terms of the link. */
  predicate AckEffect(s: Session, s': Session, before: Link, after: Link)
  {
    && s'.cfg == s.cfg && s'.src == s.src && s'.ring == s.ring
    && after.snd.next == before.snd.next && before.snd.begin <= after.snd.begin <= after.snd.next
    && WindowRel(s', after.snd)
    && (s'.rtt == s.rtt || s'.rtt == s.rtt.(active := false))
    && ((s'.ctl == s.ctl && after.snd == before.snd)
        || (s'.ctl.timerActive <==> after.snd.begin < after.snd.next))
  }

  lemma AckNumbers(begin: nat, next: nat, a: nat)
    requires begin <= next < begin + WRAP && begin <= a + 1 && a < next
    ensures IsInRange(Wrap16(a), Wrap16(begin), Wrap16(Wrap16(next) - 1)) <==> begin <= a || begin == next
    ensures var b := if begin <= a then a + 1 else begin;
            begin <= a || begin == next ==>
              Wrap16(Wrap16(a) + 1) == Wrap16(b) && (Wrap16(b) != Wrap16(next) <==> b < next)
  {
    AckTest(begin, next, a, begin);
    assert Wrap16(Wrap16(a) + 1) == Wrap16(a + 1);
    Wrap16Injective(a + 1, next);
  }

  /** The acknowledgement `a` at the head of the channel: exactly those that
      acknowledge something, and the ones for an empty window, are accepted;
      either way the new window is the window of the link. */
  lemma AckAtHead(g: GetConfig, s: Session, l: Link, a: nat)
    requires LinkInv(l) && SetupRel(g, s, l) && WindowRel(s, l.snd)
    requires l.acks != [] && l.acks[0] == Block(a)
    ensures AckAccepted(s, Wrap16(a)) <==> l.snd.begin <= a || l.snd.begin == l.snd.next
    ensures var l' := ReceiveAck(l);
            AckAccepted(s, Wrap16(a)) ==>
              && Wrap16(Wrap16(a) + 1) == Wrap16(l'.snd.begin)
              && (Wrap16(l'.snd.begin) != s.win.next <==> l'.snd.begin < l'.snd.next)
  {
    assert l.snd.begin <= a + 1 && a < l.snd.next;
    if l.snd.begin == 0 {
      assert a == 0;
    } else {
      AckNumbers(l.snd.begin, l.snd.next, a);
      hide IsInRange, Wrap16;
    }
  }

  lemma SampleTest(g: GetConfig, s: Session, h: Shadow, a: nat)
    requires LinkInv(h.link) && SetupRel(g, s, h.link) && WindowRel(s, h.link.snd) && RttRel(s, h)
    requires h.link.acks != [] && h.link.acks[0] == Block(a)
    requires s.rtt.active
    ensures IsInRange(Wrap16(a), s.rtt.block, Wrap16(s.win.next - 1)) <==> h.timed <= a
  {
    var l := h.link;
    if l.snd.begin != 0 {
      AckTest(l.snd.begin, l.snd.next, a, h.timed);
    }
  }

  lemma AckWindow(g: GetConfig, s: Session, pos: nat, h: Shadow, l': Link)
    requires LinkInv(h.link) && SessionRel(g, s, pos, h) && !s.ctl.shouldClose
    requires h.link.acks != [] && h.link.acks[0].Block?
    requires l' == ReceiveAck(h.link)
    ensures AckEffect(s, OnAck(s, Wrap16(h.link.acks[0].k)).s, h.link, l')
    ensures var s' := OnAck(s, Wrap16(h.link.acks[0].k)).s;
            s'.rtt.active ==> s.rtt.active && l'.snd.begin <= h.timed
  {
    hide RingRel, SourceRel, FileRel, TimerRel, IsInRange, AckAccepted, Wrap16, ValidSession, DataInv, LogInv;
    var l, a := h.link, h.link.acks[0].k;
    SmallNumber(0);
    SmallNumber(1);
    assert a < l.snd.next;
    AckAtHead(g, s, l, a);
    if s.rtt.active {
      SampleTest(g, s, h, a);
    }
  }

  /** The session closes when, and only when, the last block is acknowledged. */
  lemma AckCloses(g: GetConfig, s: Session, pos: nat, h: Shadow, l': Link)
    requires LinkInv(h.link) && SessionRel(g, s, pos, h) && !s.ctl.shouldClose
    requires h.link.acks != [] && h.link.acks[0].Block?
    requires l' == ReceiveAck(h.link)
    ensures var s' := OnAck(s, Wrap16(h.link.acks[0].k)).s;
            s'.ctl.shouldClose <==> s.src.lastPacket != -1 && l'.snd.begin == l'.snd.next
  {
    hide RingRel, SourceRel, TimerRel, RttRel, IsInRange, AckAccepted, Wrap16, ValidSession, DataInv, LogInv;
    var l, a := h.link, h.link.acks[0].k;
    AckAtHead(g, s, l, a);
    Wrap16Injective(a, l.snd.next - 1);
  }

  /** The window after an acknowledgement: the same blocks sent, some of them
      settled. */
  predicate Settles(before: Sender, after: Sender)
  {
    && before.begin <= after.begin <= after.next == before.next
    && (before.begin == 0 ==> before.next == 1)
  }

  lemma FileAfterAck(g: GetConfig, src: Source, snd: Sender, snd': Sender, closing: bool)
    requires FileRel(g, src, false, snd) && Settles(snd, snd')
    requires closing <==> src.lastPacket != -1 && snd'.begin == snd'.next
    ensures FileRel(g, src, closing, snd')
  {
    hide Offset, IsLastBlock, BlockOf, Wrap16;
  }

  lemma SourceAfterAck(g: GetConfig, src: Source, ring: seq<Slot>, pos: nat, w: nat, snd: Sender, snd': Sender, closing: bool)
    requires SourceRel(g, src, false, ring, pos, w, snd) && Settles(snd, snd')
    ensures SourceRel(g, src, closing, ring, pos, w, snd')
  {
    hide Offset, Partial, RingIndex;
  }

  lemma RingAfterAck(g: GetConfig, ring: seq<Slot>, w: nat, snd: Sender, snd': Sender)
    requires RingRel(g, ring, w, snd) && Settles(snd, snd')
    ensures RingRel(g, ring, w, snd')
  {
    hide Holds, RingIndex;
  }

  lemma AckStep(g: GetConfig, s: Session, pos: nat, h: Shadow, h': Shadow)
    requires LinkInv(h.link) && SessionRel(g, s, pos, h) && !s.ctl.shouldClose
    requires h.link.acks != [] && h.link.acks[0].Block?
    requires h' == h.(link := ReceiveAck(h.link))
    ensures SessionRel(g, OnAck(s, Wrap16(h.link.acks[0].k)).s, pos, h')
  {
    hide OnAck, FileRel, SourceRel, RingRel, Wrap16, LinkInv;
    AckWindow(g, s, pos, h, h'.link);
    AckCloses(g, s, pos, h, h'.link);
    var closing := OnAck(s, Wrap16(h.link.acks[0].k)).s.ctl.shouldClose;
    FileAfterAck(g, s.src, h.link.snd, h'.link.snd, closing);
    SourceAfterAck(g, s.src, s.ring, pos, h.link.w, h.link.snd, h'.link.snd, closing);
    RingAfterAck(g, s.ring, h.link.w, h.link.snd, h'.link.snd);
  }

  // ------------------------------------------------------------- time-outs

  lemma WrapDifference(b: int, n: int)
    requires b <= n < b + WRAP
    ensures Wrap16(Wrap16(n) - Wrap16(b)) == n - b
  {
    assert Wrap16(n) - Wrap16(b) == n - b || Wrap16(n) - Wrap16(b) == n - b - WRAP;
  }

  lemma WindowLengthIs(l: Link, w: Window)
    requires WindowInv(l) && w == Window(Wrap16(l.snd.begin), Wrap16(l.snd.next)) && l.w < WRAP
    ensures WindowLength(w) == l.snd.next - l.snd.begin
  {
    WrapDifference(l.snd.begin, l.snd.next);
    hide Wrap16;
  }

  /** Blocks before the last one are full. */
  lemma FullBlock(g: GetConfig, src: Source, closing: bool, snd: Sender, k: nat)
    requires FileRel(g, src, closing, snd) && 1 <= k < NextBlock(snd)
    ensures Offset(g.session.blockSize, k - 1) <= |g.file|
    ensures src.lastPacket == -1 || k < NextBlock(snd) - 1 ==>
              |BlockOf(g.file, g.session.blockSize, k)| == g.session.blockSize
  {
    var bs, n := g.session.blockSize, NextBlock(snd);
    OffsetMonotonic(bs, k - 1, k);
    if src.lastPacket == -1 {
      OffsetMonotonic(bs, k, n - 1);
    } else if k < n - 1 {
      OffsetMonotonic(bs, k, n - 2);
    }
  }

  /** Whatever is sent again is what was sent the first time. */
  lemma StoredIsWire(g: GetConfig, s: Session, pos: nat, h: Shadow, k: nat)
    requires LinkInv(h.link) && SessionRel(g, s, pos, h)
    requires 1 <= g.session.retries && 1 <= k && h.link.snd.begin <= k < h.link.snd.next
    ensures StoredPacket(s, Wrap16(k)) == Wire(g, Block(k))
  {
    hide SourceRel, RttRel, TimerRel, Wrap16, SlotOf, BlockOf, Offset, IsLastBlock, DataInv, AcksInv, LogInv;
    var l, n := h.link, NextBlock(h.link.snd);
    assert Holds(g, s.ring[RingIndex(k, l.w)], k);
    FullBlock(g, s.src, s.ctl.shouldClose, l.snd, k);
    Wrap16Injective(k, n - 1);
    hide RingRel;
  }

  lemma WindowEntryOnWire(g: GetConfig, s: Session, pos: nat, h: Shadow, i: nat)
    requires LinkInv(h.link) && SessionRel(g, s, pos, h) && 1 <= h.link.snd.begin
    requires 1 <= g.session.retries && i < h.link.snd.next - h.link.snd.begin
    ensures StoredPacket(s, Wrap16(s.win.begin + i)) == Wire(g, Block(h.link.snd.begin + i))
  {
    hide StoredPacket, Wire, Wrap16, RingRel, FileRel, SourceRel, TimerRel, RttRel, DataInv, AcksInv, LogInv;
    WrapAdd(h.link.snd.begin, i);
    StoredIsWire(g, s, pos, h, h.link.snd.begin + i);
  }

  /** A round is as long as the window. */
  lemma RetransmissionLength(g: GetConfig, s: Session, pos: nat, h: Shadow)
    requires LinkInv(h.link) && SessionRel(g, s, pos, h)
    ensures |Retransmission(s)| == h.link.snd.next - h.link.snd.begin
  {
    hide FileRel, SourceRel, RttRel, TimerRel, RingRel, AcksInv, DataInv, LogInv, StoredPacket, WindowLength, Wrap16;
    if h.link.snd.begin != 0 {
      WindowLengthIs(h.link, s.win);
    }
  }

  lemma RetransmissionOnWire(g: GetConfig, s: Session, pos: nat, h: Shadow)
    requires LinkInv(h.link) && SessionRel(g, s, pos, h) && 1 <= g.session.retries
    ensures OnWire(g, Retransmission(s), WindowMsgs(h.link.snd))
  {
    hide FileRel, SourceRel, RttRel, TimerRel, RingRel, AcksInv, DataInv, LogInv;
    hide StoredPacket, WindowLength, Wrap16;
    var l := h.link;
    if l.snd.begin != 0 {
      WindowLengthIs(l, s.win);
      forall i | 0 <= i < l.snd.next - l.snd.begin
        ensures WindowPackets(s)[i] == Wire(g, WindowMsgs(l.snd)[i])
      {
        WindowEntryOnWire(g, s, pos, h, i);
      }
    }
  }

  /** A time-out round: everything unacknowledged is sent again, once. */
  lemma TimeoutStep(g: GetConfig, s: Session, pos: nat, h: Shadow, h': Shadow)
    requires LinkInv(h.link) && SessionRel(g, s, pos, h)
    requires !s.ctl.shouldClose && s.ctl.timerActive && s.ctl.retransmission < s.cfg.retries
    requires h' == h.(link := RetransmitWindow(h.link))
    ensures SessionRel(g, OnTimeout(s).s, pos, h')
    ensures OnWire(g, Sends(OnTimeout(s).acts), WindowMsgs(h.link.snd))
  {
    hide RingRel, SourceRel, FileRel, Retransmission, LinkInv, Wire, WindowMsgs, Wrap16;
    RetransmissionOnWire(g, s, pos, h);
    SendsConcat([Submit(OpTimeout)], SendAll(Retransmission(s)));
    SendsOfSendAll(Retransmission(s));
    assert Sends([Submit(OpTimeout)]) == [];
    hide Sends;
  }

  lemma GiveUpStep(g: GetConfig, s: Session, pos: nat, h: Shadow, h': Shadow)
    requires SessionRel(g, s, pos, h)
    requires h' == h.(link := GiveUp(h.link))
    ensures SessionRel(g, SetClose(s, true), pos, h')
  {
    hide RingRel;
    assert h'.link.log == h.link.log + [Abort];
  }

  // ----------------------------------------------------------------- reads

  /** The slot being filled belongs to no unacknowledged block. */
  lemma FillKeepsRing(g: GetConfig, s: Session, pos: nat, h: Shadow, bytes: seq<byte>)
    requires LinkInv(h.link) && SessionRel(g, s, pos, h) && ValidGet(g) && s.src.fetching
    requires |bytes| <= s.cfg.blockSize - s.src.size
    ensures RingRel(g, FillSlot(s, bytes).ring, h.link.w, h.link.snd)
  {
    var l := h.link;
    var last := LastBlock(g.file, s.cfg.blockSize);
    BlockExistsIff(g.file, s.cfg.blockSize, l.snd.next);
    forall k | 1 <= g.session.retries && 1 <= k && l.snd.begin <= k < l.snd.next
      ensures RingIndex(k, l.w) != RingIndex(l.snd.next, l.w)
    {
      SlotsDistinctWhenRingSafe(k, l.snd.next, l.w, last);
    }
    hide RttRel, TimerRel, AcksInv, DataInv, LogInv, Holds, RingIndex;
    assert SlotOf(s.win.next, s.cfg.windowSize) == RingIndex(l.snd.next, l.w) by {
      hide SlotOf;
    }
  }

  lemma FillExtends(slot: Slot, slot': Slot, g: GetConfig, start: nat, pos: nat, count: nat)
    requires Partial(g, slot, start, pos) && pos + count <= |g.file|
    requires |slot'.data| == |slot.data| && pos + count - start <= |slot.data|
    requires slot'.data == slot.data[..pos - start] + g.file[pos..pos + count] + slot.data[pos + count - start..]
    ensures Partial(g, slot', start, pos + count)
  {
    assert slot'.data[..pos + count - start] == slot.data[..pos - start] + g.file[pos..pos + count];
    assert g.file[start..pos + count] == g.file[start..pos] + g.file[pos..pos + count];
  }

  /** The session after `count` more bytes of the file have reached the slot. */
  function Extended(g: GetConfig, s: Session, pos: nat, count: nat): (r: Session)
    requires ValidSession(s) && pos + count <= |g.file| && count <= s.cfg.blockSize - s.src.size
    ensures ValidSession(r)
  {
    var s1 := FillSlot(s.(src := s.src.(fetching := false)), g.file[pos..pos + count]);
    s1.(src := s1.src.(size := s.src.size + count))
  }

  lemma RingIndexIsSlotOf(k: nat, w: nat)
    requires 1 <= w
    ensures RingIndex(k, w) == SlotOf(Wrap16(k), w)
  {
  }

  /** Reading continues a block in place: its slot holds the file from the
      block's offset on, and every unacknowledged block keeps its slot. */
  lemma ReadExtends(g: GetConfig, s: Session, pos: nat, h: Shadow, count: nat)
    requires LinkInv(h.link) && SessionRel(g, s, pos, h) && ValidGet(g) && s.src.fetching
    requires pos + count <= |g.file| && count <= s.cfg.blockSize - s.src.size
    ensures var s2 := Extended(g, s, pos, count);
            && ValidSession(s2)
            && RingRel(g, s2.ring, h.link.w, h.link.snd)
            && pos == Offset(g.session.blockSize, h.link.snd.next - 1) + s.src.size
            && Partial(g, s2.ring[RingIndex(h.link.snd.next, h.link.w)], pos - s.src.size, pos + count)
  {
    var bytes := g.file[pos..pos + count];
    FillKeepsRing(g, s, pos, h, bytes);
    hide Wrap16, Agreed, BlockOf, Offset, RingRel, LinkInv, FileRel, RttRel, TimerRel, RingIndex, SlotOf, ValidGet, Partial;
    var i := SlotOf(s.win.next, s.cfg.windowSize);
    assert i == RingIndex(h.link.snd.next, h.link.w) by {
      RingIndexIsSlotOf(h.link.snd.next, h.link.w);
    }
    var s2 := Extended(g, s, pos, count);
    assert s2.ring == FillSlot(s, bytes).ring;
    FillExtends(s.ring[i], s2.ring[i], g, pos - s.src.size, pos, count);
  }

  lemma ReadPartial(g: GetConfig, s: Session, pos: nat, h: Shadow, count: nat)
    requires LinkInv(h.link) && SessionRel(g, s, pos, h) && ValidGet(g) && s.src.fetching
    requires pos + count <= |g.file| && count <= s.cfg.blockSize - s.src.size
    ensures var s2 := Extended(g, s, pos, count);
            SessionRel(g, s2.(src := s2.src.(incomplete := true)), pos + count, h)
  {
    ReadExtends(g, s, pos, h, count);
    hide RingRel, Partial, ValidGet, RingIndex;
  }

  /** When `create_data_packets` accepts a block, on a seekable file or a pipe. */
  predicate BlockComplete(g: GetConfig, s: Session, pos: nat, count: nat)
  {
    s.src.size + count == s.cfg.blockSize || pos + count == |g.file|
  }

  /** Then it is block `n` of the file, and it is short only at the end of the file. */
  lemma CompleteBlockIs(g: GetConfig, s: Session, pos: nat, n: nat, count: nat)
    requires 1 <= n && s.cfg == g.session && ValidConfig(s.cfg)
    requires pos == Offset(g.session.blockSize, n - 1) + s.src.size && pos + count <= |g.file|
    requires s.src.size + count <= s.cfg.blockSize && BlockComplete(g, s, pos, count)
    ensures BlockOf(g.file, g.session.blockSize, n) == g.file[pos - s.src.size..pos + count]
    ensures |BlockOf(g.file, g.session.blockSize, n)| == s.src.size + count
    ensures s.src.size + count < s.cfg.blockSize ==> IsLastBlock(g.file, g.session.blockSize, n)
    ensures s.src.size + count == s.cfg.blockSize ==> Offset(g.session.blockSize, n) <= |g.file|
  {
  }

  /** Numbering the completed slot adds its block to those the ring holds. */
  lemma RingAfterSend(g: GetConfig, ring: seq<Slot>, w: nat, snd: Sender, n: nat)
    requires RingRel(g, ring, w, snd) && n == snd.next && 1 <= n && snd.begin <= n < snd.begin + w
    requires 1 <= g.session.blockSize
    requires RingSafe(w, LastBlock(g.file, g.session.blockSize)) || g.session.retries == 0
    requires Offset(g.session.blockSize, n - 1) <= |g.file|
    requires Holds(g, ring[RingIndex(n, w)].(block := Wrap16(n)), n)
    ensures RingRel(g, ring[RingIndex(n, w) := ring[RingIndex(n, w)].(block := Wrap16(n))], w,
                    snd.(next := n + 1))
  {
    BlockExistsIff(g.file, g.session.blockSize, n);
    forall k | 1 <= g.session.retries && 1 <= k && snd.begin <= k < n ensures RingIndex(k, w) != RingIndex(n, w) {
      SlotsDistinctWhenRingSafe(k, n, w, LastBlock(g.file, g.session.blockSize));
    }
    hide Holds, RingIndex, RingSafe;
  }

  /** The measurement of a block sent for the first time. */
  lemma RttAfterSend(s: Session, s': Session, h: Shadow, h': Shadow)
    requires LogInv(h.link) && RttRel(s, h) && s'.cfg == s.cfg
    requires s.win.next == Wrap16(h.link.snd.next) && h.link.snd.begin <= h.link.snd.next
    requires s'.rtt == if s.cfg.adaptive && !s.rtt.active then Rtt(true, s.win.next) else s.rtt
    requires h'.timed == if s.cfg.adaptive && !s.rtt.active then h.link.snd.next else h.timed
    requires h'.link == TransmitNext(h.link)
    ensures RttRel(s', h')
  {
    var l := h.link;
    assert Block(l.snd.next) !in l.log;
    assert multiset(h'.link.log) == multiset(l.log) + multiset{Block(l.snd.next)};
  }

  lemma SendWindow(g: GetConfig, s: Session, pos: nat, h: Shadow, count: nat)
    requires LinkInv(h.link) && SessionRel(g, s, pos, h) && s.src.fetching
    requires pos + count <= |g.file| && count <= s.cfg.blockSize - s.src.size
    ensures var s3 := SendNewBlock(Extended(g, s, pos, count)).s;
            WindowRel(s3, h.link.snd.(next := h.link.snd.next + 1))
            && TimerRel(s3.ctl, h.link.snd.(next := h.link.snd.next + 1))
  {
    hide RingRel, RttRel, FileRel, Partial, Wrap16, AcksInv, DataInv, LogInv, RingIndex;
    var n := h.link.snd.next;
    Wrap16Injective(h.link.snd.begin, n);
    WrapAdd(n, 1);
  }

  lemma SendRing(g: GetConfig, s: Session, pos: nat, h: Shadow, count: nat)
    requires LinkInv(h.link) && SessionRel(g, s, pos, h) && ValidGet(g) && s.src.fetching
    requires pos + count <= |g.file| && count <= s.cfg.blockSize - s.src.size
    requires BlockComplete(g, s, pos, count)
    ensures var s3 := SendNewBlock(Extended(g, s, pos, count)).s;
            ValidSession(s3) && RingRel(g, s3.ring, h.link.w, h.link.snd.(next := h.link.snd.next + 1))
  {
    var l, n, i := h.link, h.link.snd.next, SlotOf(s.win.next, s.cfg.windowSize);
    var s2 := Extended(g, s, pos, count);
    ReadExtends(g, s, pos, h, count);
    CompleteBlockIs(g, s, pos, n, count);
    RingIndexIsSlotOf(n, l.w);
    assert Holds(g, s2.ring[i].(block := Wrap16(n)), n);
    RingAfterSend(g, s2.ring, l.w, l.snd, n);
    hide RingRel, LinkInv, FileRel, RttRel, TimerRel, SourceRel, Holds, FillSlot, Wrap16, RingIndex, SlotOf;
  }

  lemma SendSource(g: GetConfig, s: Session, pos: nat, h: Shadow, count: nat)
    requires LinkInv(h.link) && SessionRel(g, s, pos, h) && ValidGet(g) && s.src.fetching
    requires pos + count <= |g.file| && count <= s.cfg.blockSize - s.src.size
    requires BlockComplete(g, s, pos, count)
    ensures var s3 := SendNewBlock(Extended(g, s, pos, count)).s;
            && FileRel(g, s3.src, s3.ctl.shouldClose, h.link.snd.(next := h.link.snd.next + 1))
            && SourceRel(g, s3.src, s3.ctl.shouldClose, s3.ring, pos + count, h.link.w,
                         h.link.snd.(next := h.link.snd.next + 1))
  {
    var n := h.link.snd.next;
    SendRing(g, s, pos, h, count);
    CompleteBlockIs(g, s, pos, n, count);
    hide RingRel, RttRel, TimerRel, AcksInv, DataInv, LogInv, IsLastBlock, Offset, FillSlot, RingSafe, BlockOf, ValidGet;
  }

  lemma SendStep(g: GetConfig, s: Session, pos: nat, h: Shadow, h': Shadow, count: nat)
    requires LinkInv(h.link) && SessionRel(g, s, pos, h) && ValidGet(g) && s.src.fetching
    requires pos + count <= |g.file| && count <= s.cfg.blockSize - s.src.size
    requires BlockComplete(g, s, pos, count)
    requires h' == Shadow(TransmitNext(h.link), if s.cfg.adaptive && !s.rtt.active then h.link.snd.next else h.timed)
    ensures SessionRel(g, SendNewBlock(Extended(g, s, pos, count)).s, pos + count, h')
  {
    SendRing(g, s, pos, h, count);
    SendWindow(g, s, pos, h, count);
    SendSource(g, s, pos, h, count);
    RttAfterSend(s, SendNewBlock(Extended(g, s, pos, count)).s, h, h');
    hide RingRel, RttRel, LinkInv, FileRel, SourceRel, WindowRel, TimerRel, FillSlot, RingSafe, ValidGet, Offset;
  }

  lemma SendOnWire(g: GetConfig, s: Session, pos: nat, h: Shadow, count: nat)
    requires LinkInv(h.link) && SessionRel(g, s, pos, h) && ValidGet(g) && s.src.fetching
    requires pos + count <= |g.file| && count <= s.cfg.blockSize - s.src.size
    requires BlockComplete(g, s, pos, count)
    ensures Sends(SendNewBlock(Extended(g, s, pos, count)).acts) == [Wire(g, Block(h.link.snd.next))]
  {
    var n, i := h.link.snd.next, SlotOf(s.win.next, s.cfg.windowSize);
    var s2 := Extended(g, s, pos, count);
    ReadExtends(g, s, pos, h, count);
    CompleteBlockIs(g, s, pos, n, count);
    RingIndexIsSlotOf(n, h.link.w);
    var p := Data(s2.win.next, s2.ring[i].data[..s2.src.size]);
    assert p == Wire(g, Block(n));
    SendsConcat([Send(p)], [Submit(OpTimeout)]);
    assert Sends([Send(p)]) == [p];
    assert [Send(p)] + [] == [Send(p)];
    hide RingRel, LinkInv, FileRel, RttRel, TimerRel, Wire, FillSlot;
  }
}
