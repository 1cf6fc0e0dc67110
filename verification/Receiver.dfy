/**
 The receiving side of the client: `receive_file` and `receive_packet` of
 client.c, as the loop they are and as the fold of a step over what arrives.
 */
module Receiver {
  import opened BlockNumbers
  import opened FileBlocks
  import opened Packets

  /** What `handle_oack_packet` makes of the OACK of this session. */
  datatype OackVerdict = OackRejected | OackAccepted(blockSize: uint16)

  datatype ReceiverConfig = ReceiverConfig(
    retries: uint8,
    useOptions: bool,
    listRequested: bool,
    requestedBlockSize: uint16,
    oack: OackVerdict)

  datatype Status = Running | Succeeded | Failed

  datatype Receiver = Receiver(
    isFirst: bool,
    expected: uint16,
    blockSize: uint16,
    lastSent: Packet,
    attempts: nat,
    out: seq<byte>,
    status: Status,
    sent: seq<Packet>)

  /** What `fwrite` does with a payload: all of it, or only `count` bytes. */
  datatype Write = WriteOk | WriteShort(count: nat, diskFull: bool)

  /** The result of one `recvfrom`. */
  datatype Outcome =
    | TimedOut
    | RecvError
    | FromStranger
    | Received(packet: Packet, local: Write)

  function InitialReceiver(cfg: ReceiverConfig): (r: Receiver)
  {
    Receiver(true, 1, cfg.requestedBlockSize, Request, 0, [], Running, [])
  }

  function SendAck(r: Receiver, block: uint16): (r': Receiver)
  {
    r.(lastSent := Ack(block), sent := r.sent + [Ack(block)])
  }

  function Resend(r: Receiver): (r': Receiver)
  {
    r.(sent := r.sent + [r.lastSent])
  }

  function Fail(r: Receiver): (r': Receiver)
  {
    r.(status := Failed)
  }

  function FailWithError(r: Receiver): (r': Receiver)
  {
    r.(status := Failed, sent := r.sent + [Error])
  }

  function ReceiveOack(cfg: ReceiverConfig, r: Receiver): (r': Receiver)
  {
    if !r.isFirst then r
    else if cfg.oack.OackRejected? then FailWithError(r)
    else SendAck(r.(blockSize := cfg.oack.blockSize, isFirst := false), 0)
  }

  function AcceptData(r: Receiver, block: uint16, payload: seq<byte>, local: Write): (r': Receiver)
  {
    if block != r.expected then
      Resend(r)
    else if local.WriteShort? && local.count < |payload| then
      var r1 := r.(expected := Wrap16(r.expected + 1), out := r.out + payload[..local.count]);
      if local.diskFull then FailWithError(r1) else Fail(r1)
    else
      var r1 := SendAck(r.(expected := Wrap16(r.expected + 1), out := r.out + payload), block);
      if |payload| < r.blockSize then r1.(status := Succeeded) else r1
  }

  /** A DATA packet as first answer means the server ignored the options. */
  function ReceiveData(cfg: ReceiverConfig, r: Receiver, block: uint16, payload: seq<byte>, local: Write): (r': Receiver)
  {
    if r.isFirst && cfg.useOptions && cfg.listRequested then
      FailWithError(r)
    else
      AcceptData(r.(isFirst := false, blockSize := if r.isFirst then DEFAULT_BLKSIZE else r.blockSize),
                 block, payload, local)
  }

  /** One result of `recvfrom` inside `receive_packet` inside `receive_file`. */
  function Step(cfg: ReceiverConfig, r: Receiver, o: Outcome): (r': Receiver)
  {
    if r.status != Running then r
    else match o
      case TimedOut =>
        if r.attempts == cfg.retries then Fail(r) else Resend(r.(attempts := r.attempts + 1))
      case RecvError => Fail(r)
      case FromStranger => r.(attempts := 0)
      case Received(p, local) =>
        var r0 := r.(attempts := 0);
        if p.Oack? then ReceiveOack(cfg, r0)
        else if p.Data? then ReceiveData(cfg, r0, p.block, p.payload, local)
        else Fail(r0)
  }

  function Run(cfg: ReceiverConfig, script: seq<Outcome>): (r: Receiver)
  {
    if script == [] then InitialReceiver(cfg)
    else Step(cfg, Run(cfg, script[..|script| - 1]), script[|script| - 1])
  }

  /** Time-outs since the last packet, of whomever. */
  function TimeoutsInARow(script: seq<Outcome>): (n: nat)
  {
    if script == [] || !script[|script| - 1].TimedOut? then 0 else TimeoutsInARow(script[..|script| - 1]) + 1
  }

  lemma {:induction false} AttemptsCountTimeouts(cfg: ReceiverConfig, script: seq<Outcome>)
    ensures Run(cfg, script).status == Running ==> Run(cfg, script).attempts == TimeoutsInARow(script) <= cfg.retries
    decreases |script|
  {
    hide Wrap16;
    if script != [] {
      AttemptsCountTimeouts(cfg, script[..|script| - 1]);
    }
  }

  /** Between two packets the client retransmits at most `retries` times: a
      running receiver gives up on a time-out if and only if it is the one
      after `retries` time-outs in a row. */
  lemma AttemptsBounded(cfg: ReceiverConfig, script: seq<Outcome>)
    requires Run(cfg, script).status == Running
    ensures TimeoutsInARow(script) <= cfg.retries
    ensures Run(cfg, script + [TimedOut]).status == Failed <==> TimeoutsInARow(script) == cfg.retries
  {
    AttemptsCountTimeouts(cfg, script);
    assert (script + [TimedOut])[..|script + [TimedOut]| - 1] == script;
    hide ReceiveOack, ReceiveData;
  }

  /** What was sent last is what would be sent again. */
  predicate RepeatsLast(r: Receiver)
  {
    r.status == Running ==> r.lastSent == if r.sent == [] then Request else r.sent[|r.sent| - 1]
  }

  lemma OackRepeatsLast(cfg: ReceiverConfig, r: Receiver)
    requires RepeatsLast(r) && r.status == Running
    ensures RepeatsLast(ReceiveOack(cfg, r))
  {
  }

  lemma DataRepeatsLast(cfg: ReceiverConfig, r: Receiver, block: uint16, payload: seq<byte>, local: Write)
    requires RepeatsLast(r) && r.status == Running
    ensures RepeatsLast(ReceiveData(cfg, r, block, payload, local))
  {
    hide Wrap16;
  }

  lemma StepRepeatsLast(cfg: ReceiverConfig, r: Receiver, o: Outcome)
    requires RepeatsLast(r)
    ensures RepeatsLast(Step(cfg, r, o))
  {
    hide ReceiveOack, ReceiveData;
    if r.status == Running && o.Received? {
      OackRepeatsLast(cfg, r.(attempts := 0));
      if o.packet.Data? {
        DataRepeatsLast(cfg, r.(attempts := 0), o.packet.block, o.packet.payload, o.local);
      }
    }
  }

  lemma RequestSent(cfg: ReceiverConfig)
    ensures RepeatsLast(InitialReceiver(cfg))
  {
  }

  lemma {:induction false} LastSentIsLast(cfg: ReceiverConfig, script: seq<Outcome>)
    ensures RepeatsLast(Run(cfg, script))
    decreases |script|
  {
    hide Step, RepeatsLast;
    if script == [] {
      RequestSent(cfg);
    } else {
      LastSentIsLast(cfg, script[..|script| - 1]);
      StepRepeatsLast(cfg, Run(cfg, script[..|script| - 1]), script[|script| - 1]);
    }
  }

  /** Every time-out within the budget repeats the last packet sent, the request
      if there was none. */
  lemma TimeoutRepeatsLastPacket(cfg: ReceiverConfig, script: seq<Outcome>)
    requires Run(cfg, script).status == Running && TimeoutsInARow(script) < cfg.retries
    ensures var r, r' := Run(cfg, script), Run(cfg, script + [TimedOut]);
            && r'.status == Running
            && r'.sent == r.sent + [if r.sent == [] then Request else r.sent[|r.sent| - 1]]
  {
    AttemptsCountTimeouts(cfg, script);
    LastSentIsLast(cfg, script);
    assert (script + [TimedOut])[..|script + [TimedOut]| - 1] == script;
    hide ReceiveOack, ReceiveData;
  }
}
