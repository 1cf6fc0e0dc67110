/**
 The steps of the client and of the channels, seen as steps of the link.
 */
module GetClient {
  import opened BlockNumbers
  import opened FileBlocks
  import opened Packets
  import opened Session
  import opened GoBackN
  import opened GetTransfer
  import opened GetInvariant
  import opened GetSession
  import R = Receiver

  /** The link after the client has taken the oldest packet and become `after`. */
  function ShadowReceive(l: Link, before: R.Receiver, after: R.Receiver): (r: Link)
    requires l.data != []
  {
    if after.status == R.Failed then
      if |after.sent| > |before.sent| then Quit(LoseData(l, 0)) else LoseData(l, 0)
    else
      Deliver(l, |after.sent| > |before.sent| && 1 <= l.expected)
  }

  function ShadowClientEvent(l: Link, before: R.Receiver, after: R.Receiver): (r: Link)
  {
    if |after.sent| > |before.sent| && !before.isFirst && 1 <= l.expected then RepeatAck(l) else l
  }

  /** A block in flight has the expected 16-bit number exactly when it is the
      expected block. */
  lemma DataTest(l: Link, i: nat)
    requires LinkInv(l) && l.w < WRAP && i < |l.data| && l.data[i].Block?
    ensures Wrap16(l.data[i].k) == Wrap16(l.expected) <==> l.data[i].k == l.expected
  {
    Wrap16Injective(l.data[i].k, l.expected);
  }

  /** While the client waits for its first packet, the session has sent
      nothing but the first block of the link. */
  lemma FirstPacket(l: Link, i: nat)
    requires LinkInv(l) && l.expected == l.first && (l.first == 1 ==> l.w == 1)
    requires i < |l.data| && l.data[i].Block?
    ensures l.data[i].k == l.first
  {
  }

  /** The expected block continues the output, and a short one completes it. */
  lemma ExpectedBlock(g: GetConfig, s: Session, closing: bool, l: Link)
    requires LinkInv(l) && FileRel(g, s.src, closing, l.snd) && 1 <= l.expected < l.snd.next
    ensures var bs := g.session.blockSize;
            var b := BlockOf(g.file, bs, l.expected);
            && FirstBlocks(g.file, bs, l.expected - 1) + b == FirstBlocks(g.file, bs, l.expected)
            && (|b| < bs ==> FirstBlocks(g.file, bs, l.expected) == g.file)
  {
    FullBlock(g, s.src, closing, l.snd, l.expected);
    FirstBlocksExtend(g.file, g.session.blockSize, l.expected - 1);
    ShortBlockIsLast(g.file, g.session.blockSize, l.expected);
  }

  /** The client accepts the expected block. */
  lemma AcceptStep(g: GetConfig, s: Session, closing: bool, l: Link, r: R.Receiver, local: R.Write)
    requires LinkInv(l) && FileRel(g, s.src, closing, l.snd)
    requires l.data != [] && l.data[0] == Block(l.expected) && 1 <= l.expected
    requires r.status == R.Running && r.expected == Wrap16(l.expected) && r.blockSize == g.session.blockSize
    requires r.out == FirstBlocks(g.file, g.session.blockSize, l.expected - 1)
    ensures var b := BlockOf(g.file, g.session.blockSize, l.expected);
            var r' := R.AcceptData(r, Wrap16(l.expected), b, local);
            if r'.status == R.Failed then
              r'.out <= g.file && (r'.sent == r.sent || r'.sent == r.sent + [Error])
            else
              && ClientRel(g, r'.(isFirst := false), l.first, l.expected + 1)
              && r'.sent == r.sent + [Ack(Wrap16(l.expected))]
  {
    hide BlockOf, FirstBlocks, Wrap16, FileRel, AcksInv, LogInv;
    assert l.expected < l.snd.next;
    ExpectedBlock(g, s, closing, l);
    WrapAdd(l.expected, 1);
    var b := BlockOf(g.file, g.session.blockSize, l.expected);
    FirstBlocksArePrefix(g.file, g.session.blockSize, l.expected);
    assert r.out + b <= g.file;
    if local.WriteShort? && local.count < |b| {
      assert r.out + b[..local.count] <= r.out + b;
    }
    hide LinkInv;
  }

  /** A DATA packet reaches a running client. */
  lemma DataStep(g: GetConfig, s: Session, closing: bool, l: Link, r: R.Receiver, local: R.Write)
    requires ValidGet(g) && SetupRel(g, s, l)
    requires LinkInv(l) && FileRel(g, s.src, closing, l.snd)
    requires ClientRel(g, r, l.first, l.expected) && r.status == R.Running
    requires l.data != [] && l.data[0].Block? && 1 <= l.data[0].k
    ensures var k := l.data[0].k;
            var b := BlockOf(g.file, g.session.blockSize, k);
            var r' := R.ReceiveData(g.client, r, Wrap16(k), b, local);
            if r'.status == R.Failed then
              r'.out <= g.file && (r'.sent == r.sent || r'.sent == r.sent + [Error])
            else
              && ClientRel(g, r', l.first, Deliver(l, 1 <= l.expected).expected)
              && 1 <= l.expected
              && r'.sent == r.sent + [Ack(Wrap16(if k == l.expected then k else l.expected - 1))]
  {
    var k := l.data[0].k;
    var b := BlockOf(g.file, g.session.blockSize, k);
    DataTest(l, 0);
    if r.isFirst {
      FirstPacket(l, 0);
    }
    assert 1 <= l.expected;
    var r0 := r.(isFirst := false, blockSize := if r.isFirst then DEFAULT_BLKSIZE else r.blockSize);
    if k == l.expected {
      AcceptStep(g, s, closing, l, r0, local);
    }
    hide BlockOf, FirstBlocks, Wrap16, FileRel, LinkInv;
  }

  lemma ShadowReceiveKeeps(l: Link, before: R.Receiver, after: R.Receiver)
    requires LinkInv(l) && l.data != []
    ensures LinkInv(ShadowReceive(l, before, after))
  {
    hide LinkInv;
    LoseDataKeeps(l, 0);
    QuitKeeps(LoseData(l, 0));
    DeliverKeeps(l, |after.sent| > |before.sent| && 1 <= l.expected);
  }

  /** What the client has become and what it has sent agree with the link. */
  predicate ClientStepRel(g: GetConfig, l: Link, r: R.Receiver, r': R.Receiver)
    requires l.data != []
  {
    var l' := ShadowReceive(l, r, r');
    && ClientRel(g, r', l'.first, l'.expected)
    && r.sent <= r'.sent
    && l.acks <= l'.acks
    && AcksOnWire(r'.sent[|r.sent|..], l'.acks[|l.acks|..])
  }

  /** A client that gives up, with or without telling. */
  lemma FailureRel(g: GetConfig, l: Link, r: R.Receiver, r': R.Receiver)
    requires l.data != [] && r'.status == R.Failed && r'.out <= g.file
    requires r'.sent == r.sent || r'.sent == r.sent + [Error]
    ensures ClientStepRel(g, l, r, r')
  {
  }

  lemma AnswerRel(g: GetConfig, l: Link, r: R.Receiver, r': R.Receiver, k: nat)
    requires l.data != [] && r'.status != R.Failed
    requires l.data[0] == Block(l.expected) || 1 <= l.expected
    requires k == if l.data[0] == Block(l.expected) then l.expected else l.expected - 1
    requires ClientRel(g, r', l.first, k + 1)
    requires r'.sent == r.sent + [Ack(Wrap16(k))]
    ensures ClientStepRel(g, l, r, r')
  {
    hide ClientRel, Wrap16;
  }

  lemma OackAnswer(g: GetConfig, l: Link, r: R.Receiver, r': R.Receiver)
    requires l.data != [] && l.data[0] == Block(0)
    requires ClientRel(g, r, l.first, l.expected) && r.status == R.Running
    requires if r'.status == R.Failed then
               r'.out <= g.file && r'.sent == r.sent + [Error]
             else if r.isFirst then
               && ClientRel(g, r', l.first, 1) && l.expected == 0
               && r'.sent == r.sent + [Ack(0)]
             else
               r' == r.(attempts := 0) && 1 <= l.expected
    ensures ClientStepRel(g, l, r, r')
  {
    if r'.status == R.Failed {
      FailureRel(g, l, r, r');
    } else if r.isFirst {
      AnswerRel(g, l, r, r', 0);
    } else {
      assert ShadowReceive(l, r, r') == Deliver(l, false);
    }
  }

  lemma OackStep(g: GetConfig, s: Session, l: Link, r: R.Receiver)
    requires ValidGet(g) && SetupRel(g, s, l) && LinkInv(l)
    requires ClientRel(g, r, l.first, l.expected) && r.status == R.Running
    requires l.data != [] && l.data[0] == Block(0)
    ensures var r' := R.ReceiveOack(g.client, r);
            if r'.status == R.Failed then
              r'.out <= g.file && r'.sent == r.sent + [Error]
            else if r.isFirst then
              && ClientRel(g, r', l.first, 1) && l.expected == 0
              && r'.sent == r.sent + [Ack(0)]
            else
              r' == r && 1 <= l.expected
  {
    if r.isFirst {
      FirstPacket(l, 0);
    }
    hide BlockOf, LinkInv;
  }

  /** The client step as a whole: what it sends joins the channel. */
  lemma ReceiveStep(g: GetConfig, s: Session, closing: bool, l: Link, r: R.Receiver, p: Packet, local: R.Write)
    requires ValidGet(g) && SetupRel(g, s, l)
    requires LinkInv(l) && FileRel(g, s.src, closing, l.snd)
    requires ClientRel(g, r, l.first, l.expected) && r.status == R.Running
    requires l.data != [] && p == Wire(g, l.data[0])
    ensures ClientStepRel(g, l, r, R.Step(g.client, r, R.Received(p, local)))
  {
    var r0 := r.(attempts := 0);
    assert ClientRel(g, r0, l.first, l.expected) && r.out <= g.file;
    hide ValidGet, SetupRel, LinkInv, FileRel, ClientRel, ClientStepRel, R.ReceiveOack, R.ReceiveData, BlockOf, Wrap16;
    var r' := R.Step(g.client, r, R.Received(p, local));
    if l.data[0].Abort? {
      FailureRel(g, l, r, r');
    } else if l.data[0].k == 0 {
      OackStep(g, s, l, r0);
      OackAnswer(g, l, r, r');
    } else {
      var k := l.data[0].k;
      DataStep(g, s, closing, l, r0, local);
      if r'.status == R.Failed {
        FailureRel(g, l, r, r');
      } else {
        AnswerRel(g, l, r, r', if k == l.expected then k else l.expected - 1);
      }
    }
  }
}
