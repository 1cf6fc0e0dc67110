/**
 The sending side of the client: `send_file` of client.c as a fold over the
 results of `recvfrom`.
 */
module FileSender {
  import opened BlockNumbers
  import opened FileBlocks
  import opened Packets
  import opened Session
  import R = Receiver

  datatype SenderConfig = SenderConfig(blockSize: uint16, windowSize: uint16, retries: uint8, file: seq<byte>)

  /** `next - 1` is an `int` in the code: -1 when `next` has wrapped to 0.
      `lastSize` is the payload of the newest packet, `rounds` the number of
      time-out rounds so far. */
  datatype FileSender = FileSender(
    begin: uint16,
    next: uint16,
    eof: bool,
    lastSize: nat,
    retransmissions: uint8,
    pos: nat,
    ring: seq<Slot>,
    sent: seq<Packet>,
    rounds: nat,
    status: R.Status)

  predicate ValidSender(cfg: SenderConfig, r: FileSender)
  {
    && 1 <= cfg.blockSize && 1 <= cfg.windowSize
    && |r.ring| == cfg.windowSize
    && (forall i :: 0 <= i < |r.ring| ==> |r.ring[i].data| == cfg.blockSize)
    && r.pos <= |cfg.file|
    && r.lastSize <= cfg.blockSize
  }

  predicate CanFill(cfg: SenderConfig, r: FileSender)
  {
    !r.eof && IsInRange(r.next, r.begin, Wrap16(r.begin + cfg.windowSize - 1))
  }

  /** One turn of the sending phase: read a block, number it, send it. */
  function FillOne(cfg: SenderConfig, r: FileSender): (r': FileSender)
    requires ValidSender(cfg, r)
  {
    var i := SlotOf(r.next, cfg.windowSize);
    var end := Min(r.pos + cfg.blockSize, |cfg.file|);
    var bytes := cfg.file[r.pos..end];
    var slot := Slot(r.next, bytes + r.ring[i].data[|bytes|..]);
    FileSender(r.begin, Wrap16(r.next + 1), r.eof || |bytes| < cfg.blockSize, |bytes|, r.retransmissions, end,
               r.ring[i := slot], r.sent + [Data(r.next, bytes)], r.rounds, r.status)
  }

  function Room(cfg: SenderConfig, r: FileSender): (n: int)
  {
    cfg.windowSize - Wrap16(r.next - r.begin)
  }

  lemma RoomNumbers(next: uint16, begin: uint16, w: uint16)
    requires IsInRange(next, begin, Wrap16(begin + w - 1)) && 1 <= w
    ensures Wrap16(next - begin) < w
    ensures Wrap16(Wrap16(next + 1) - begin) == Wrap16(next - begin) + 1
  {
    hide IsInRange, Wrap16;
    RoomIsDistance(begin, next, w);
    DistanceAfterSend(begin, next);
  }

  lemma FillOneNarrows(cfg: SenderConfig, r: FileSender)
    requires ValidSender(cfg, r) && CanFill(cfg, r)
    ensures ValidSender(cfg, FillOne(cfg, r))
    ensures 0 <= Room(cfg, FillOne(cfg, r)) < Room(cfg, r)
  {
    RoomNumbers(r.next, r.begin, cfg.windowSize);
    hide IsInRange, Wrap16;
  }

  /** The sending phase: fill the window. */
  function Fill(cfg: SenderConfig, r: FileSender): (r': FileSender)
    requires ValidSender(cfg, r)
    decreases if CanFill(cfg, r) then Room(cfg, r) + 1 else 0
  {
    if CanFill(cfg, r) then
      FillOneNarrows(cfg, r);
      Fill(cfg, FillOne(cfg, r))
    else r
  }

  /** The packet sent again for block number `i`, which is not 0. */
  function StoredData(cfg: SenderConfig, r: FileSender, i: uint16): (p: Packet)
    requires ValidSender(cfg, r)
  {
    var slot := r.ring[SlotOf(i, cfg.windowSize)];
    Data(slot.block, slot.data[..if i == r.next - 1 then r.lastSize else cfg.blockSize])
  }

  function ResentWindow(cfg: SenderConfig, r: FileSender): (ps: seq<Packet>)
    requires ValidSender(cfg, r)
  {
    seq(Wrap16(r.next - r.begin), i requires 0 <= i => StoredData(cfg, r, Wrap16(r.begin + i)))
  }

  function OnTimeout(cfg: SenderConfig, r: FileSender): (r': FileSender)
    requires ValidSender(cfg, r)
  {
    if r.retransmissions > cfg.retries then
      r.(status := R.Failed)
    else
      r.(retransmissions := Wrap8(r.retransmissions + 1), rounds := r.rounds + 1,
         sent := r.sent + ResentWindow(cfg, r))
  }

  function OnAck(r: FileSender, block: uint16): (r': FileSender)
  {
    if !IsInRange(block, r.begin, Wrap16(r.next - 1)) then r
    else
      r.(begin := Wrap16(block + 1), retransmissions := 0,
         status := if r.eof && block == r.next - 1 then R.Succeeded else r.status)
  }

  /** The receiving phase. */
  function Receive(cfg: SenderConfig, r: FileSender, o: R.Outcome): (r': FileSender)
    requires ValidSender(cfg, r)
    ensures ValidSender(cfg, r')
  {
    match o
    case TimedOut => OnTimeout(cfg, r)
    case RecvError => r.(status := R.Failed)
    case FromStranger => r
    case Received(p, _) => if p.Ack? then OnAck(r, p.block) else r.(status := R.Failed)
  }

  lemma {:induction false} FillValid(cfg: SenderConfig, r: FileSender)
    requires ValidSender(cfg, r)
    ensures ValidSender(cfg, Fill(cfg, r))
    decreases if CanFill(cfg, r) then Room(cfg, r) + 1 else 0
  {
    if CanFill(cfg, r) {
      FillOneNarrows(cfg, r);
      FillValid(cfg, FillOne(cfg, r));
    }
  }

  /** One turn of the main loop, from the start of its receiving phase. */
  function Turn(cfg: SenderConfig, r: FileSender, o: R.Outcome): (r': FileSender)
    requires ValidSender(cfg, r)
    ensures ValidSender(cfg, r')
  {
    if r.status != R.Running then r
    else
      var r1 := Receive(cfg, r, o);
      if r1.status != R.Running then r1
      else
        FillValid(cfg, r1);
        Fill(cfg, r1)
  }

  function InitialSender(ring: seq<Slot>): (r: FileSender)
  {
    FileSender(1, 1, false, 0, 0, 0, ring, [], 0, R.Running)
  }

  function Run(cfg: SenderConfig, ring: seq<Slot>, script: seq<R.Outcome>): (r: FileSender)
    requires ValidSender(cfg, InitialSender(ring))
    ensures ValidSender(cfg, r)
  {
    if script == [] then
      FillValid(cfg, InitialSender(ring));
      Fill(cfg, InitialSender(ring))
    else
      Turn(cfg, Run(cfg, ring, script[..|script| - 1]), script[|script| - 1])
  }
}
