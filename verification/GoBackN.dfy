/**
 Go-Back-N with unbounded block numbers: one sender, one receiver and two
 channels that deliver in order but may lose anything.

 A transfer with options starts at block 0, which stands for the OACK and is
 sent alone; a transfer without options starts at block 1.
 */
module GoBackN {
  /** Blocks `begin <= k < next` are sent and not acknowledged. */
  datatype Sender = Sender(begin: nat, next: nat)

  predicate Acknowledges(s: Sender, a: int)
  {
    s.begin <= a < s.next
  }

  function Acknowledge(s: Sender, a: nat): (r: Sender)
  {
    if Acknowledges(s, a) then s.(begin := a + 1) else s
  }

  /** The window has room for one more block. */
  predicate HasRoom(s: Sender, w: nat)
  {
    s.next < s.begin + if s.begin == 0 then 1 else w
  }

  /** One move of a Go-Back-N sender with window `w`: send the next block,
      accept an acknowledgement, or neither. */
  ghost predicate SenderStep(s: Sender, s': Sender, w: nat)
  {
    || s' == s
    || (HasRoom(s, w) && s' == s.(next := s.next + 1))
    || (exists a: nat :: Acknowledges(s, a) && s' == Acknowledge(s, a))
  }

  /** A numbered message, or the error packet with which a peer gives up. */
  datatype Msg = Block(k: nat) | Abort

  /** `data` and `acks` are in flight, oldest first; `log` is everything the
      sender ever put on the wire. */
  datatype Link = Link(first: nat, w: nat, snd: Sender, data: seq<Msg>, acks: seq<Msg>, expected: nat, log: seq<Msg>)

  function RemoveAt<T>(s: seq<T>, i: nat): (r: seq<T>)
    requires i < |s|
  {
    s[..i] + s[i + 1..]
  }

  // ------------------------------------------------------------------ steps

  predicate CanTransmit(l: Link)
  {
    HasRoom(l.snd, l.w)
  }

  function Put(l: Link, ms: seq<Msg>): (r: Link)
  {
    l.(data := l.data + ms, log := l.log + ms)
  }

  function TransmitNext(l: Link): (r: Link)
  {
    Put(l, [Block(l.snd.next)]).(snd := l.snd.(next := l.snd.next + 1))
  }

  function WindowMsgs(s: Sender): (r: seq<Msg>)
  {
    seq(if s.begin <= s.next then s.next - s.begin else 0, i requires 0 <= i => Block(s.begin + i))
  }

  function RetransmitWindow(l: Link): (r: Link)
  {
    Put(l, WindowMsgs(l.snd))
  }

  function GiveUp(l: Link): (r: Link)
  {
    Put(l, [Abort])
  }

  function LoseData(l: Link, i: nat): (r: Link)
    requires i < |l.data|
  {
    l.(data := RemoveAt(l.data, i))
  }

  function LoseAck(l: Link, i: nat): (r: Link)
    requires i < |l.acks|
  {
    l.(acks := RemoveAt(l.acks, i))
  }

  function ReceiveAck(l: Link): (r: Link)
    requires l.acks != []
  {
    var snd := if l.acks[0].Block? then Acknowledge(l.snd, l.acks[0].k) else l.snd;
    l.(snd := snd, acks := l.acks[1..])
  }

  /** The receiver acknowledges again the last block it accepted. */
  function RepeatAck(l: Link): (r: Link)
    requires 1 <= l.expected
  {
    l.(acks := l.acks + [Block(l.expected - 1)])
  }

  /** The receiver gives up. */
  function Quit(l: Link): (r: Link)
  {
    l.(acks := l.acks + [Abort])
  }

  /** The receiver takes the oldest message. A block other than the expected
      one may be answered with a repeated acknowledgement. */
  function Deliver(l: Link, repeat: bool): (r: Link)
    requires l.data != [] && (repeat ==> 1 <= l.expected)
  {
    var rest := l.(data := l.data[1..]);
    if l.data[0] == Block(l.expected) then
      rest.(expected := l.expected + 1, acks := l.acks + [Block(l.expected)])
    else if repeat then RepeatAck(rest)
    else rest
  }

  // -------------------------------------------------------------- invariant

  predicate WindowInv(l: Link)
  {
    && 1 <= l.w
    && l.first <= 1
    && l.first <= l.snd.begin <= l.expected <= l.snd.next
    && l.snd.next <= l.snd.begin + if l.snd.begin == 0 then 1 else l.w
  }

  /** Acknowledgements in flight are in order, not older than the last one
      that moved the window, and only of blocks received. */
  predicate AcksInv(l: Link)
  {
    && (forall i :: 0 <= i < |l.acks| && l.acks[i].Block? ==>
          l.snd.begin <= l.acks[i].k + 1 && l.acks[i].k < l.expected)
    && (forall i, j :: 0 <= i < j < |l.acks| && l.acks[i].Block? && l.acks[j].Block? ==> l.acks[i].k <= l.acks[j].k)
  }

  /** A sequence of transmissions never falls back a full window. */
  predicate NeverBackAWindow(ms: seq<Msg>, w: nat)
  {
    forall i, j :: 0 <= i < j < |ms| && ms[i].Block? && ms[j].Block? ==> ms[i].k < ms[j].k + w
  }

  predicate DataInv(l: Link)
  {
    && (forall i :: 0 <= i < |l.data| && l.data[i].Block? ==>
          l.first <= l.data[i].k < l.snd.next && l.expected <= l.data[i].k + l.w)
    && NeverBackAWindow(l.data, l.w)
  }

  predicate LogInv(l: Link)
  {
    && (forall i :: 0 <= i < |l.log| && l.log[i].Block? ==> l.first <= l.log[i].k < l.snd.next)
    && NeverBackAWindow(l.log, l.w)
  }

  predicate LinkInv(l: Link)
  {
    WindowInv(l) && AcksInv(l) && DataInv(l) && LogInv(l)
  }

  /** What a live sender may put on the wire: blocks of its window, or the
      next block, in ascending order. */
  predicate FromWindow(l: Link, ms: seq<Msg>, next: nat)
  {
    && (forall i :: 0 <= i < |ms| && ms[i].Block? ==> l.snd.begin <= ms[i].k < next)
    && (forall i, j :: 0 <= i < j < |ms| && ms[i].Block? && ms[j].Block? ==> ms[i].k < ms[j].k)
  }

  lemma AppendKeepsDistance(old_: seq<Msg>, ms: seq<Msg>, lo: nat, hi: nat, w: nat)
    requires NeverBackAWindow(old_, w) && hi <= lo + w
    requires forall i :: 0 <= i < |old_| && old_[i].Block? ==> old_[i].k < hi
    requires forall i :: 0 <= i < |ms| && ms[i].Block? ==> lo <= ms[i].k
    requires forall i, j :: 0 <= i < j < |ms| && ms[i].Block? && ms[j].Block? ==> ms[i].k < ms[j].k
    ensures NeverBackAWindow(old_ + ms, w)
  {
  }

  lemma PutKeeps(l: Link, ms: seq<Msg>, next: nat)
    requires LinkInv(l) && l.snd.next <= next <= l.snd.begin + if l.snd.begin == 0 then 1 else l.w
    requires FromWindow(l, ms, next)
    ensures LinkInv(Put(l, ms).(snd := l.snd.(next := next)))
  {
    AppendKeepsDistance(l.data, ms, l.snd.begin, next, l.w);
    AppendKeepsDistance(l.log, ms, l.snd.begin, next, l.w);
  }

  lemma TransmitNextKeeps(l: Link)
    requires LinkInv(l) && CanTransmit(l)
    ensures LinkInv(TransmitNext(l))
  {
    PutKeeps(l, [Block(l.snd.next)], l.snd.next + 1);
  }

  lemma RetransmitWindowKeeps(l: Link)
    requires LinkInv(l)
    ensures LinkInv(RetransmitWindow(l))
  {
    PutKeeps(l, WindowMsgs(l.snd), l.snd.next);
  }

  lemma GiveUpKeeps(l: Link)
    requires LinkInv(l)
    ensures LinkInv(GiveUp(l))
  {
    PutKeeps(l, [Abort], l.snd.next);
  }

  lemma LoseDataKeeps(l: Link, i: nat)
    requires LinkInv(l) && i < |l.data|
    ensures LinkInv(LoseData(l, i))
  {
  }

  lemma LoseAckKeeps(l: Link, i: nat)
    requires LinkInv(l) && i < |l.acks|
    ensures LinkInv(LoseAck(l, i))
  {
  }

  lemma ReceiveAckKeeps(l: Link)
    requires LinkInv(l) && l.acks != []
    ensures LinkInv(ReceiveAck(l))
  {
  }

  lemma RepeatAckKeeps(l: Link)
    requires LinkInv(l) && 1 <= l.expected
    ensures LinkInv(RepeatAck(l))
  {
  }

  lemma QuitKeeps(l: Link)
    requires LinkInv(l)
    ensures LinkInv(Quit(l))
  {
  }

  lemma DeliverKeeps(l: Link, repeat: bool)
    requires LinkInv(l) && l.data != [] && (repeat ==> 1 <= l.expected)
    ensures LinkInv(Deliver(l, repeat))
  {
  }

  /** With a window of one the sender is in lock step: it sends block `k` only
      when the receiver has every block before `k`, and never returns to an
      earlier block. */
  lemma LockStep(l: Link)
    requires LinkInv(l) && l.w == 1
    ensures forall i :: 0 <= i < |l.log| && l.log[i].Block? ==> l.log[i].k <= l.expected
    ensures forall i, j :: 0 <= i < j < |l.log| && l.log[i].Block? && l.log[j].Block? ==> l.log[i].k <= l.log[j].k
    ensures CanTransmit(l) ==> l.snd.begin == l.expected == l.snd.next
  {
  }
}
