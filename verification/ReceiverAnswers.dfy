/**
 What `receive_file` makes of the results of `recvfrom`, in terms of nothing but
 those results: which blocks it keeps and what it answers to each packet.
 */
module ReceiverAnswers {
  import opened BlockNumbers
  import opened FileBlocks
  import opened Packets
  import opened Receiver

  /** Payloads of the blocks that came in order. */
  function Kept(script: seq<Outcome>): (ps: seq<seq<byte>>)
  {
    if script == [] then []
    else
      var before, o := Kept(script[..|script| - 1]), script[|script| - 1];
      before + if o.Received? && o.packet.Data? && o.packet.block == (|before| + 1) % 0x1_0000 then [o.packet.payload] else []
  }

  /** The first packet of the server that was understood. */
  datatype Opening = Nothing | WithOack | WithData

  function OpenedBy(script: seq<Outcome>): (a: Opening)
  {
    if script == [] then Nothing
    else
      var before, o := OpenedBy(script[..|script| - 1]), script[|script| - 1];
      if before != Nothing then before
      else if o.Received? && o.packet.Oack? then WithOack
      else if o.Received? && o.packet.Data? then WithData
      else Nothing
  }

  /** The packet that is sent again: the request until an OACK or block 1 comes,
      and then the acknowledgement of the last block kept, 0 after the OACK. */
  function LastAnswer(script: seq<Outcome>): (p: Packet)
  {
    if OpenedBy(script) != WithOack && Kept(script) == [] then Request else Ack(|Kept(script)| % 0x1_0000)
  }

  /** A DATA packet instead of an OACK means blocks of 512 bytes. */
  function SizeInUse(cfg: ReceiverConfig, script: seq<Outcome>): (n: uint16)
  {
    if OpenedBy(script) == WithOack && cfg.oack.OackAccepted? then cfg.oack.blockSize else 512
  }

  predicate HistoryRel(cfg: ReceiverConfig, r: Receiver, script: seq<Outcome>)
  {
    r.status == Running ==>
      && r.expected == Wrap16(|Kept(script)| + 1)
      && r.out == Joined(Kept(script))
      && r.lastSent == LastAnswer(script)
      && (r.isFirst <==> OpenedBy(script) == Nothing)
      && (r.isFirst ==> Kept(script) == [])
      && (!r.isFirst ==> r.blockSize == SizeInUse(cfg, script))
      && (OpenedBy(script) == WithOack ==> cfg.oack.OackAccepted?)
  }

  // ------------------------------------------------------------- one packet

  lemma KeptNext(script: seq<Outcome>, o: Outcome)
    ensures var n := |Kept(script)|;
            && Kept(script + [o]) == Kept(script) +
                 (if o.Received? && o.packet.Data? && o.packet.block == (n + 1) % 0x1_0000 then [o.packet.payload] else [])
            && OpenedBy(script + [o]) ==
                 (if OpenedBy(script) != Nothing then OpenedBy(script)
                  else if o.Received? && o.packet.Oack? then WithOack
                  else if o.Received? && o.packet.Data? then WithData
                  else Nothing)
  {
    assert (script + [o])[..|script + [o]| - 1] == script;
  }

  lemma JoinedNext(ps: seq<seq<byte>>, p: seq<byte>)
    ensures Joined(ps + [p]) == Joined(ps) + p
  {
    assert (ps + [p])[..|ps|] == ps;
  }

  lemma RunNext(cfg: ReceiverConfig, script: seq<Outcome>, o: Outcome)
    ensures Run(cfg, script + [o]) == Step(cfg, Run(cfg, script), o)
  {
    assert (script + [o])[..|script + [o]| - 1] == script;
    hide Step;
  }

  /** The client waiting for a DATA packet refuses one that comes in place of the
      OACK that was to grant it a list. */
  predicate RefusesData(cfg: ReceiverConfig, script: seq<Outcome>)
  {
    OpenedBy(script) == Nothing && cfg.useOptions && cfg.listRequested
  }

  /** What becomes of a DATA packet. */
  predicate DataOutcome(cfg: ReceiverConfig, script: seq<Outcome>, r: Receiver, block: uint16, payload: seq<byte>, local: Write, r': Receiver)
  {
    if RefusesData(cfg, script) then
      r'.status == Failed && r'.out == r.out && r'.sent == r.sent + [Error]
    else if block != (|Kept(script)| + 1) % 0x1_0000 then
      r'.status == Running && r'.out == r.out
      && r'.sent == r.sent + [LastAnswer(script)]
    else if local.WriteShort? && local.count < |payload| then
      r'.status == Failed && r'.out == r.out + payload[..local.count]
      && r'.sent == r.sent + if local.diskFull then [Error] else []
    else
      r'.out == r.out + payload && r'.sent == r.sent + [Ack(block)]
      && r'.status == if |payload| < SizeInUse(cfg, script) then Succeeded else Running
  }

  lemma WrapIs(n: int)
    ensures Wrap16(n) == n % 0x1_0000
  {
  }

  lemma DataAnswer(cfg: ReceiverConfig, script: seq<Outcome>, r: Receiver, block: uint16, payload: seq<byte>, local: Write)
    requires HistoryRel(cfg, r, script) && r.status == Running
    ensures DataOutcome(cfg, script, r, block, payload, local, Step(cfg, r, Received(Data(block, payload), local)))
  {
    hide Kept, OpenedBy, Joined, Wrap16;
    WrapIs(|Kept(script)| + 1);
  }

  /** A block that is kept. */
  lemma KeptStep(cfg: ReceiverConfig, script: seq<Outcome>, r: Receiver, payload: seq<byte>, local: Write)
    requires HistoryRel(cfg, r, script) && r.status == Running
    ensures var o := Received(Data(r.expected, payload), local);
            HistoryRel(cfg, Step(cfg, r, o), script + [o])
  {
    hide Kept, OpenedBy, Joined, Wrap16;
    var o := Received(Data(r.expected, payload), local);
    KeptNext(script, o);
    JoinedNext(Kept(script), payload);
    NextNumber(|Kept(script)| + 1);
    WrapIs(|Kept(script)| + 1);
  }

  /** One that is not. */
  lemma OtherDataStep(cfg: ReceiverConfig, script: seq<Outcome>, r: Receiver, block: uint16, payload: seq<byte>, local: Write)
    requires HistoryRel(cfg, r, script) && r.status == Running && block != r.expected
    ensures var o := Received(Data(block, payload), local);
            HistoryRel(cfg, Step(cfg, r, o), script + [o])
  {
    hide Kept, OpenedBy, Joined, Wrap16;
    KeptNext(script, Received(Data(block, payload), local));
    WrapIs(|Kept(script)| + 1);
    assert Kept(script) + [] == Kept(script);
  }

  lemma DataStep(cfg: ReceiverConfig, script: seq<Outcome>, r: Receiver, block: uint16, payload: seq<byte>, local: Write)
    requires HistoryRel(cfg, r, script) && r.status == Running
    ensures var o := Received(Data(block, payload), local);
            DataOutcome(cfg, script, r, block, payload, local, Step(cfg, r, o))
            && HistoryRel(cfg, Step(cfg, r, o), script + [o])
  {
    hide HistoryRel, DataOutcome, Step;
    DataAnswer(cfg, script, r, block, payload, local);
    if block == r.expected {
      KeptStep(cfg, script, r, payload, local);
    } else {
      OtherDataStep(cfg, script, r, block, payload, local);
    }
  }

  predicate OackOutcome(cfg: ReceiverConfig, script: seq<Outcome>, r: Receiver, r': Receiver)
  {
    && r'.out == r.out
    && (if OpenedBy(script) != Nothing then r'.status == Running && r'.sent == r.sent
        else if cfg.oack.OackRejected? then r'.status == Failed && r'.sent == r.sent + [Error]
        else r'.status == Running && r'.sent == r.sent + [Ack(0)])
  }

  lemma OtherStep(cfg: ReceiverConfig, script: seq<Outcome>, r: Receiver, o: Outcome)
    requires HistoryRel(cfg, r, script) && r.status == Running && !(o.Received? && o.packet.Data?)
    ensures HistoryRel(cfg, Step(cfg, r, o), script + [o])
    ensures o.Received? && o.packet.Oack? ==> OackOutcome(cfg, script, r, Step(cfg, r, o))
  {
    KeptNext(script, o);
    SmallNumber(0);
    hide Kept, OpenedBy, Joined, Wrap16;
    assert Kept(script) + [] == Kept(script);
  }

  lemma FirstRel(cfg: ReceiverConfig)
    ensures HistoryRel(cfg, InitialReceiver(cfg), [])
  {
  }

  lemma StaysEnded(cfg: ReceiverConfig, r: Receiver, o: Outcome, script: seq<Outcome>)
    requires r.status != Running
    ensures Step(cfg, r, o) == r && HistoryRel(cfg, Step(cfg, r, o), script)
  {
  }

  lemma {:induction false} RunRel(cfg: ReceiverConfig, script: seq<Outcome>)
    ensures HistoryRel(cfg, Run(cfg, script), script)
  {
    hide HistoryRel, Step;
    if script == [] {
      FirstRel(cfg);
    } else {
      var before, o := script[..|script| - 1], script[|script| - 1];
      assert script == before + [o];
      RunRel(cfg, before);
      var r := Run(cfg, before);
      if r.status != Running {
        StaysEnded(cfg, r, o, script);
      } else if o.Received? && o.packet.Data? {
        DataStep(cfg, before, r, o.packet.block, o.packet.payload, o.local);
      } else {
        OtherStep(cfg, before, r, o);
      }
    }
  }

  // ---------------------------------------------------------------- results

  /** As long as it runs, the client has output the blocks that came in order,
      and nothing else. */
  lemma OutputsKept(cfg: ReceiverConfig, script: seq<Outcome>)
    requires Run(cfg, script).status == Running
    ensures Run(cfg, script).out == Joined(Kept(script))
  {
    RunRel(cfg, script);
    hide Run, Kept, Joined;
  }

  /** A DATA packet is kept if and only if its number is one more than the count
      of the blocks kept, modulo 65536, and acknowledged then; any other is
      answered with the last packet again. */
  lemma DataAnswered(cfg: ReceiverConfig, script: seq<Outcome>, block: uint16, payload: seq<byte>, local: Write)
    requires Run(cfg, script).status == Running
    ensures DataOutcome(cfg, script, Run(cfg, script), block, payload, local,
                        Run(cfg, script + [Received(Data(block, payload), local)]))
  {
    hide Run, HistoryRel, DataOutcome, Step;
    RunRel(cfg, script);
    RunNext(cfg, script, Received(Data(block, payload), local));
    DataStep(cfg, script, Run(cfg, script), block, payload, local);
  }

  /** The first answer may be an OACK, which is acknowledged or refused; a later
      one is ignored. */
  lemma OackAnswered(cfg: ReceiverConfig, script: seq<Outcome>, local: Write)
    requires Run(cfg, script).status == Running
    ensures OackOutcome(cfg, script, Run(cfg, script), Run(cfg, script + [Received(Oack, local)]))
  {
    hide Run, HistoryRel, OackOutcome, Step;
    RunRel(cfg, script);
    RunNext(cfg, script, Received(Oack, local));
    OtherStep(cfg, script, Run(cfg, script), Received(Oack, local));
  }

  /** An error of the socket, or a packet of any other kind, ends the transfer
      without an answer; a packet of a stranger changes nothing but the count of
      time-outs. */
  lemma OthersAnswered(cfg: ReceiverConfig, script: seq<Outcome>, o: Outcome)
    requires Run(cfg, script).status == Running
    ensures var r, r' := Run(cfg, script), Run(cfg, script + [o]);
            && (o.RecvError? || (o.Received? && (o.packet.Ack? || o.packet.Error? || o.packet.Request?)) ==>
                  r'.status == Failed && r'.sent == r.sent && r'.out == r.out)
            && (o.FromStranger? ==> r' == r.(attempts := 0))
  {
    RunNext(cfg, script, o);
    hide Run;
  }
}
