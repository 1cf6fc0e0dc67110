/**
 What every run of a read request keeps: the 16-bit session, the client and
 the packets in flight follow a Go-Back-N link with unbounded numbers.
 */
module GetInvariant {
  import opened BlockNumbers
  import opened RingSlots
  import opened FileBlocks
  import opened Packets
  import opened Session
  import opened SessionJobs
  import opened GoBackN
  import opened GetTransfer
  import R = Receiver

  /** The link, and the absolute number of the block whose round trip is being
      measured. */
  datatype Shadow = Shadow(link: Link, timed: nat)

  function Wire(g: GetConfig, m: Msg): (p: Packet)
  {
    if m.Abort? then Error
    else if m.k == 0 then Oack
    else Data(Wrap16(m.k), BlockOf(g.file, g.session.blockSize, m.k))
  }

  function AckWire(m: Msg): (p: Packet)
  {
    if m.Abort? then Error else Ack(Wrap16(m.k))
  }

  predicate OnWire(g: GetConfig, ps: seq<Packet>, ms: seq<Msg>)
  {
    |ps| == |ms| && forall i :: 0 <= i < |ps| ==> ps[i] == Wire(g, ms[i])
  }

  predicate AcksOnWire(ps: seq<Packet>, ms: seq<Msg>)
  {
    |ps| == |ms| && forall i :: 0 <= i < |ps| ==> ps[i] == AckWire(ms[i])
  }

  /** The next DATA block the session will send. */
  function NextBlock(snd: Sender): (r: nat)
    ensures 1 <= r
  {
    if snd.begin == 0 || snd.next == 0 then 1 else snd.next
  }

  predicate WindowRel(s: Session, snd: Sender)
  {
    && (OackPending(s) <==> snd.begin == 0)
    && (if snd.begin == 0 then snd.next == 1 && s.win == Window(1, 1)
        else s.win == Window(Wrap16(snd.begin), Wrap16(snd.next)))
  }

  /** Bytes of the next block that are already in its slot. */
  function Have(src: Source): (r: nat)
  {
    if src.fetching || src.incomplete then src.size else 0
  }

  /** Blocks up to the next one exist, and the short block is the last sent. */
  predicate FileRel(g: GetConfig, src: Source, closing: bool, snd: Sender)
  {
    var n := NextBlock(snd);
    if src.lastPacket == -1 then
      Offset(g.session.blockSize, n - 1) <= |g.file|
    else
      && 2 <= n && 1 <= snd.begin
      && src.lastPacket == Wrap16(n - 1)
      && IsLastBlock(g.file, g.session.blockSize, n - 1)
      && src.size == |BlockOf(g.file, g.session.blockSize, n - 1)|
      && !src.fetching
      && (snd.begin == snd.next ==> closing)
  }

  /** The first `pos - start` bytes of the slot are the file from `start` to `pos`. */
  predicate Partial(g: GetConfig, slot: Slot, start: nat, pos: nat)
  {
    start <= pos <= |g.file| && pos - start <= |slot.data| && slot.data[..pos - start] == g.file[start..pos]
  }

  /** The file offset and the slot of the next block agree. */
  predicate SourceRel(g: GetConfig, src: Source, closing: bool, ring: seq<Slot>, pos: nat, w: nat, snd: Sender)
  {
    var n := NextBlock(snd);
    && 1 <= w && |ring| == w
    && (src.fetching ==> src.lastPacket == -1 && !src.incomplete && 1 <= snd.begin && HasRoom(snd, w))
    && (src.fetching || (src.lastPacket == -1 && !closing) ==>
          && pos == Offset(g.session.blockSize, n - 1) + Have(src)
          && Partial(g, ring[RingIndex(n, w)], pos - Have(src), pos))
  }

  /** Slot `i` holds block `k`, ready to be sent again. */
  predicate Holds(g: GetConfig, slot: Slot, k: nat)
    requires 1 <= k
  {
    var b := BlockOf(g.file, g.session.blockSize, k);
    slot.block == Wrap16(k) && |b| <= |slot.data| && slot.data[..|b|] == b
  }

  /** Where blocks may be sent again, the ring holds those of the window. */
  predicate RingRel(g: GetConfig, ring: seq<Slot>, w: nat, snd: Sender)
  {
    && |ring| == w && 1 <= w
    && forall k :: 1 <= g.session.retries && 1 <= k && snd.begin <= k < snd.next ==> Holds(g, ring[RingIndex(k, w)], k)
  }

  /** The timer of a live session runs exactly while something is unacknowledged. */
  predicate TimerRel(ctl: Control, snd: Sender)
  {
    !ctl.shouldClose ==> (ctl.timerActive <==> snd.begin < snd.next)
  }

  /** A measured block is unacknowledged and has been sent exactly once. */
  predicate RttRel(s: Session, h: Shadow)
  {
    s.rtt.active ==>
      && s.cfg.adaptive
      && h.link.snd.begin <= h.timed < h.link.snd.next
      && s.rtt.block == Wrap16(h.timed)
      && multiset(h.link.log)[Block(h.timed)] == 1
  }

  /** Fixed for the whole run. */
  predicate SetupRel(g: GetConfig, s: Session, l: Link)
  {
    && ValidSession(s) && s.cfg == g.session && s.cfg.request == Read
    && l.w == s.cfg.windowSize
    && l.first == (if s.cfg.optionsRequired then 0 else 1)
  }

  predicate SessionRel(g: GetConfig, s: Session, pos: nat, h: Shadow)
  {
    && SetupRel(g, s, h.link)
    && WindowRel(s, h.link.snd)
    && FileRel(g, s.src, s.ctl.shouldClose, h.link.snd)
    && SourceRel(g, s.src, s.ctl.shouldClose, s.ring, pos, h.link.w, h.link.snd)
    && RingRel(g, s.ring, h.link.w, h.link.snd)
    && TimerRel(s.ctl, h.link.snd)
    && RttRel(s, h)
  }

  /** Number of DATA blocks accepted by a client that expects `expected`. */
  function Accepted(expected: nat): (r: nat)
  {
    if expected == 0 then 0 else expected - 1
  }

  predicate ClientRel(g: GetConfig, client: R.Receiver, first: nat, expected: nat)
  {
    && (client.status == R.Running ==>
          client.out == FirstBlocks(g.file, g.session.blockSize, Accepted(expected))
          && (if client.isFirst
              then expected == first && client.lastSent == Request && client.expected == 1
              else 1 <= expected && client.lastSent == Ack(Wrap16(expected - 1))
                   && client.expected == Wrap16(expected) && client.blockSize == g.session.blockSize))
    && client.out <= g.file
    && (client.status == R.Succeeded ==> client.out == g.file)
  }

  /** A read is outstanding exactly while the session is fetching. */
  predicate ReadsRel(c: Ctx)
  {
    c.io.outstanding[OpRead] == if c.s.src.fetching then 1 else 0
  }

  predicate Inv(g: GetConfig, y: System, h: Shadow)
  {
    && LinkInv(h.link)
    && SessionRel(g, y.c.s, y.pos, h)
    && ReadsRel(y.c)
    && ClientRel(g, y.client, h.link.first, h.link.expected)
    && OnWire(g, y.toClient, h.link.data)
    && AcksOnWire(y.toServer, h.link.acks)
    && OnWire(g, y.c.io.sent, h.link.log)
  }
}
