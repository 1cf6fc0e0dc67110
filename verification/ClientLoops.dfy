/**
 `receive_file` and `send_file` of client.c as loops that update their window
 variables, packet buffer and socket in place. What `recvfrom` returns is read
 from a script; a script that ends early leaves the transfer running.
 */
module ClientLoops {
  import opened BlockNumbers
  import opened FileBlocks
  import opened Packets
  import opened Session
  import R = Receiver
  import F = FileSender
  import I = SenderInvariant

  // ------------------------------------------------------------- receiving

  lemma {:induction false} ReceptionEnds(cfg: R.ReceiverConfig, script: seq<R.Outcome>, n: nat)
    requires n <= |script| && R.Run(cfg, script[..n]).status != R.Running
    ensures R.Run(cfg, script) == R.Run(cfg, script[..n])
    decreases |script|
  {
    if n == |script| {
      assert script[..n] == script;
    } else {
      var before := script[..|script| - 1];
      assert before[..n] == script[..n];
      ReceptionEnds(cfg, before, n);
    }
  }

  lemma ReceptionNext(cfg: R.ReceiverConfig, script: seq<R.Outcome>, n: nat)
    requires n < |script|
    ensures R.Run(cfg, script[..n + 1]) == R.Step(cfg, R.Run(cfg, script[..n]), script[n])
  {
    assert script[..n + 1][..n] == script[..n];
    hide R.Step;
  }

  lemma EmptyScript(cfg: R.ReceiverConfig)
    ensures R.Run(cfg, []) == R.InitialReceiver(cfg)
  {
  }

  class Reception {
    const cfg: R.ReceiverConfig
    var isFirst: bool
    var expected: uint16
    var blockSize: uint16
    var lastSent: Packet
    var retransmissions: nat
    var out: seq<byte>
    var status: R.Status
    var sent: seq<Packet>

    ghost function Value(): (r: R.Receiver)
      reads this
    {
      R.Receiver(isFirst, expected, blockSize, lastSent, retransmissions, out, status, sent)
    }

    /** The request has just been sent. */
    constructor (config: R.ReceiverConfig)
      ensures cfg == config && Value() == R.InitialReceiver(config)
    {
      cfg := config;
      isFirst, expected, blockSize, lastSent := true, 1, config.requestedBlockSize, Request;
      retransmissions, out, status, sent := 0, [], R.Running, [];
    }

    method SendAck(block: uint16)
      modifies this`lastSent, this`sent
      ensures Value() == R.SendAck(old(Value()), block)
    {
      lastSent := Ack(block);
      sent := sent + [lastSent];
    }

    method SendError()
      modifies this`sent, this`status
      ensures Value() == R.FailWithError(old(Value()))
    {
      sent := sent + [Error];
      status := R.Failed;
    }

    method RetransmitLastPacketSent()
      modifies this`sent
      ensures Value() == R.Resend(old(Value()))
    {
      sent := sent + [lastSent];
    }

    /** `receive_packet`: the index after the last outcome consumed; the loop
        ends with a packet, an error, or the time-out that spends the budget. */
    method ReceivePacket(script: seq<R.Outcome>, from: nat) returns (n: nat)
      requires from <= |script| && Value() == R.Run(cfg, script[..from]) && status == R.Running
      modifies this`sent, this`retransmissions, this`status
      ensures from <= n <= |script|
      ensures status == R.Running && n == |script| ==> Value() == R.Run(cfg, script)
      ensures status == R.Running && n < |script| ==>
                Value() == R.Run(cfg, script[..n]) && (script[n].Received? || script[n].FromStranger?)
      ensures status != R.Running ==> status == R.Failed && Value() == R.Run(cfg, script[..n])
    {
      hide R.Run;
      n := from;
      while n < |script| && !script[n].Received? && !script[n].FromStranger?
        invariant from <= n <= |script| && status == R.Running
        invariant Value() == R.Run(cfg, script[..n])
      {
        ReceptionNext(cfg, script, n);
        n := n + 1;
        if script[n - 1].RecvError? || retransmissions == cfg.retries {
          status := R.Failed;
          return;
        }
        RetransmitLastPacketSent();
        retransmissions := retransmissions + 1;
      }
      assert script[..|script|] == script;
    }

    method HandleOack()
      requires status == R.Running
      modifies this
      ensures Value() == R.ReceiveOack(cfg, old(Value()))
    {
      if !isFirst {
        return;
      }
      if cfg.oack.OackRejected? {
        SendError();
        return;
      }
      blockSize := cfg.oack.blockSize;
      SendAck(0);
      isFirst := false;
    }

    method HandleData(block: uint16, payload: seq<byte>, local: R.Write)
      requires status == R.Running
      modifies this
      ensures Value() == R.ReceiveData(cfg, old(Value()), block, payload, local)
    {
      hide Wrap16;
      if isFirst {
        if cfg.useOptions && cfg.listRequested {
          SendError();
          return;
        }
        blockSize := DEFAULT_BLKSIZE;
        isFirst := false;
      }
      if block != expected {
        RetransmitLastPacketSent();
        return;
      }
      expected := Wrap16(expected + 1);
      if local.WriteShort? && local.count < |payload| {
        out := out + payload[..local.count];
        if local.diskFull {
          SendError();
        }
        status := R.Failed;
        return;
      }
      out := out + payload;
      SendAck(block);
      if |payload| < blockSize {
        status := R.Succeeded;
      }
    }

    /** `receive_file`. */
    method ReceiveFile(script: seq<R.Outcome>)
      requires Value() == R.InitialReceiver(cfg)
      modifies this
      ensures Value() == R.Run(cfg, script)
    {
      hide R.Run, R.ReceiveOack, R.ReceiveData;
      EmptyScript(cfg);
      var n := 0;
      assert script[..0] == [];
      while status == R.Running
        invariant 0 <= n <= |script|
        invariant Value() == R.Run(cfg, script[..n])
        decreases |script| - n, if status == R.Running then 1 else 0
      {
        n := ReceivePacket(script, n);
        if status != R.Running {
          break;
        }
        if n == |script| {
          return;
        }
        ReceptionNext(cfg, script, n);
        retransmissions := 0;
        if script[n].Received? {
          var p := script[n].packet;
          if p.Oack? {
            HandleOack();
          } else if p.Data? {
            HandleData(p.block, p.payload, script[n].local);
          } else {
            status := R.Failed;
          }
        }
        n := n + 1;
      }
      ReceptionEnds(cfg, script, n);
    }
  }

  // --------------------------------------------------------------- sending

  lemma {:induction false} TransmissionEnds(cfg: F.SenderConfig, ring: seq<Slot>, script: seq<R.Outcome>, n: nat)
    requires F.ValidSender(cfg, F.InitialSender(ring)) && n <= |script|
    requires F.Run(cfg, ring, script[..n]).status != R.Running
    ensures F.Run(cfg, ring, script) == F.Run(cfg, ring, script[..n])
    decreases |script|
  {
    if n == |script| {
      assert script[..n] == script;
    } else {
      var before := script[..|script| - 1];
      assert before[..n] == script[..n];
      TransmissionEnds(cfg, ring, before, n);
    }
  }

  lemma TransmissionNext(cfg: F.SenderConfig, ring: seq<Slot>, script: seq<R.Outcome>, n: nat)
    requires F.ValidSender(cfg, F.InitialSender(ring)) && n < |script|
    ensures F.Run(cfg, ring, script[..n + 1]) == F.Turn(cfg, F.Run(cfg, ring, script[..n]), script[n])
  {
    assert script[..n + 1][..n] == script[..n];
    hide F.Turn;
  }

  lemma NothingReceived(cfg: F.SenderConfig, ring: seq<Slot>)
    requires F.ValidSender(cfg, F.InitialSender(ring))
    ensures F.Run(cfg, ring, []) == F.Fill(cfg, F.InitialSender(ring))
  {
  }

  lemma {:induction false} FillStatus(cfg: F.SenderConfig, r: F.FileSender)
    requires F.ValidSender(cfg, r)
    ensures F.Fill(cfg, r).status == r.status
    decreases if F.CanFill(cfg, r) then F.Room(cfg, r) + 1 else 0
  {
    if F.CanFill(cfg, r) {
      F.FillOneNarrows(cfg, r);
      FillStatus(cfg, F.FillOne(cfg, r));
    }
  }

  /** Waiting for packets, the client always has something unacknowledged. */
  lemma NeverEmpty(cfg: F.SenderConfig, ring: seq<Slot>, script: seq<R.Outcome>)
    requires I.ValidStart(cfg, ring) && F.Run(cfg, ring, script).status == R.Running
    ensures F.Run(cfg, ring, script).begin < F.Run(cfg, ring, script).next
  {
    hide F.Run, I.ValidStart;
    I.SenderIsGoBackN(cfg, ring, script, R.RecvError);
  }

  lemma SameStored(cfg: F.SenderConfig, r: F.FileSender, r': F.FileSender, i: uint16)
    requires F.ValidSender(cfg, r) && F.ValidSender(cfg, r')
    requires r'.ring == r.ring && r'.next == r.next && r'.lastSize == r.lastSize
    ensures F.StoredData(cfg, r', i) == F.StoredData(cfg, r, i)
  {
  }

  lemma SameWindow(cfg: F.SenderConfig, r: F.FileSender, r': F.FileSender)
    requires F.ValidSender(cfg, r) && F.ValidSender(cfg, r')
    requires r'.ring == r.ring && r'.begin == r.begin && r'.next == r.next && r'.lastSize == r.lastSize
    ensures F.ResentWindow(cfg, r') == F.ResentWindow(cfg, r)
  {
    hide F.StoredData;
    var a, b := F.ResentWindow(cfg, r), F.ResentWindow(cfg, r');
    forall k | 0 <= k < |a| ensures a[k] == b[k] {
      SameStored(cfg, r, r', Wrap16(r.begin + k));
      assert a[k] == F.StoredData(cfg, r, Wrap16(r.begin + k));
      assert b[k] == F.StoredData(cfg, r', Wrap16(r.begin + k));
    }
  }

  class Transmission {
    const cfg: F.SenderConfig
    const packets: array<Slot>
    var begin: uint16
    var next: uint16
    var eof: bool
    var lastSize: nat
    var retransmissions: uint8
    var pos: nat
    var sent: seq<Packet>
    var status: R.Status
    ghost var rounds: nat

    ghost function Value(): (r: F.FileSender)
      reads this, packets
    {
      F.FileSender(begin, next, eof, lastSize, retransmissions, pos, packets[..], sent, rounds, status)
    }

    ghost predicate Valid()
      reads this, packets
    {
      F.ValidSender(cfg, Value())
    }

    constructor (config: F.SenderConfig, buffer: array<Slot>)
      requires F.ValidSender(config, F.InitialSender(buffer[..]))
      ensures cfg == config && packets == buffer && Value() == F.InitialSender(buffer[..])
    {
      cfg, packets := config, buffer;
      begin, next, eof, lastSize, retransmissions := 1, 1, false, 0, 0;
      pos, sent, status, rounds := 0, [], R.Running, 0;
    }

    /** One turn of the sending phase. */
    method SendNext()
      requires Valid() && F.CanFill(cfg, Value())
      modifies this, packets
      ensures Value() == F.FillOne(cfg, old(Value()))
    {
      hide Wrap16, IsInRange;
      var i := SlotOf(next, cfg.windowSize);
      var end := Min(pos + cfg.blockSize, |cfg.file|);
      var bytes := cfg.file[pos..end];
      if |bytes| < cfg.blockSize {
        eof := true;
      }
      packets[i] := Slot(next, bytes + packets[i].data[|bytes|..]);
      pos, lastSize := end, |bytes|;
      sent := sent + [Data(next, bytes)];
      next := Wrap16(next + 1);
    }

    /** The sending phase. */
    method FillWindow()
      requires Valid()
      modifies this, packets
      ensures Valid() && Value() == F.Fill(cfg, old(Value()))
    {
      hide F.FillOne, F.ValidSender, IsInRange, Wrap16, F.Room;
      ghost var target := F.Fill(cfg, Value());
      while !eof && IsInRange(next, begin, Wrap16(begin + cfg.windowSize - 1))
        invariant Valid() && F.Fill(cfg, Value()) == target
        decreases F.Room(cfg, Value())
      {
        F.FillOneNarrows(cfg, Value());
        SendNext();
      }
    }

    /** The retransmission loop. */
    method ResendWindow()
      requires Valid() && begin != next
      modifies this`sent
      ensures Value() == old(Value()).(sent := old(sent) + F.ResentWindow(cfg, old(Value())))
    {
      hide F.StoredData, IsInRange, F.ValidSender, SlotOf, Wrap16;
      SmallNumber(begin);
      ghost var before := Value();
      ghost var ps := F.ResentWindow(cfg, before);
      ghost var n := 0;
      var i: uint16 := begin;
      while IsInRange(i, begin, Wrap16(next - 1))
        invariant 0 <= n <= |ps| && i == Wrap16(begin + n)
        invariant sent == old(sent) + ps[..n] && F.ValidSender(cfg, Value())
        decreases |ps| - n
      {
        WindowTest(begin, next, n);
        ResendOne(i, before);
        assert ps[..n + 1] == ps[..n] + [ps[n]];
        NextNumber(begin + n);
        i := Wrap16(i + 1);
        n := n + 1;
      }
      WindowTest(begin, next, n);
      assert ps[..n] == ps;
    }

    /** The stored packet of block `i`. */
    method ResendOne(i: uint16, ghost before: F.FileSender)
      requires Valid() && F.ValidSender(cfg, before)
      requires before.ring == packets[..] && before.next == next && before.lastSize == lastSize
      modifies this`sent
      ensures sent == old(sent) + [F.StoredData(cfg, before, i)] && F.ValidSender(cfg, Value())
    {
      var slot := packets[SlotOf(i, cfg.windowSize)];
      sent := sent + [Data(slot.block, slot.data[..if i == next - 1 then lastSize else cfg.blockSize])];
    }

    /** The receiving phase. It is entered with a window that is not empty. */
    method Receive(o: R.Outcome)
      requires Valid() && status == R.Running
      requires o.TimedOut? && retransmissions <= cfg.retries ==> begin != next
      modifies this
      ensures Value() == F.Receive(cfg, old(Value()), o)
    {
      hide F.ResentWindow, IsInRange;
      match o
      case TimedOut =>
        if retransmissions > cfg.retries {
          status := R.Failed;
        } else {
          CountRound();
          ResendWindow();
        }
      case RecvError => status := R.Failed;
      case FromStranger =>
      case Received(p, _) =>
        if p.Ack? {
          if IsInRange(p.block, begin, Wrap16(next - 1)) {
            begin := Wrap16(p.block + 1);
            if eof && p.block == next - 1 {
              status := R.Succeeded;
            }
            retransmissions := 0;
          }
        } else {
          status := R.Failed;
        }
    }

    method CountRound()
      requires Valid()
      modifies this`retransmissions, this`rounds
      ensures Value() == old(Value()).(retransmissions := Wrap8(old(retransmissions) + 1), rounds := old(rounds) + 1)
      ensures Valid() && F.ResentWindow(cfg, Value()) == F.ResentWindow(cfg, old(Value()))
    {
      ghost var before := Value();
      retransmissions := Wrap8(retransmissions + 1);
      rounds := rounds + 1;
      SameWindow(cfg, before, Value());
      hide F.ResentWindow;
    }

    /** `send_file`. */
    method SendFile(script: seq<R.Outcome>)
      requires Value() == F.InitialSender(packets[..]) && I.ValidStart(cfg, packets[..])
      modifies this, packets
      ensures Value() == F.Run(cfg, old(packets[..]), script)
    {
      hide F.Run, F.Fill, F.Receive, I.Sendable, F.ValidSender;
      ghost var ring := packets[..];
      NothingReceived(cfg, ring);
      var n := 0;
      assert script[..0] == [] && script[..|script|] == script;
      while true
        invariant 0 <= n <= |script| && Valid() && status == R.Running
        invariant F.Run(cfg, ring, script[..n]) == F.Fill(cfg, Value())
        decreases |script| - n
      {
        FillStatus(cfg, Value());
        FillWindow();
        if n == |script| {
          return;
        }
        NeverEmpty(cfg, ring, script[..n]);
        TransmissionNext(cfg, ring, script, n);
        Receive(script[n]);
        n := n + 1;
        if status != R.Running {
          TransmissionEnds(cfg, ring, script, n);
          return;
        }
      }
    }
  }
}
