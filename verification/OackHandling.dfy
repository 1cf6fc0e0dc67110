/**
 What the client makes of the OACK of any server, in terms of the pairs it holds.
 */
module OackHandling {
  import opened BlockNumbers
  import opened CStrings
  import opened Options
  import opened Requests
  import opened Session
  import opened Negotiation
  import opened ServerLoop

  /** A pair gives the option a valid value. */
  predicate Given(ps: seq<Pair>, o: nat)
    requires o < TOTAL
  {
    LastOccurrence(ps, o) >= 0
  }

  /** The number that was given last. */
  function NumberGiven(ps: seq<Pair>, o: nat, otherwise: nat): (n: nat)
    requires o < TOTAL
  {
    if Given(ps, o) then Strtoul(ps[LastOccurrence(ps, o)].1).value else otherwise
  }

  predicate SpellsAdaptive(p: Pair)
  {
    Spells(p.0, "timeout") && Spells(p.1, "adaptive")
  }

  /** An adaptive time-out that was asked for is granted. */
  predicate GrantsAdaptive(c: Client, ps: seq<Pair>)
  {
    c.useAdaptive && c.request == Read && exists i :: 0 <= i < |ps| && SpellsAdaptive(ps[i])
  }

  lemma AdaptiveGranted(ps: seq<Pair>)
    ensures AsksAdaptive(ps) <==> exists i :: 0 <= i < |ps| && SpellsAdaptive(ps[i])
  {
    hide IsAdaptive, Spells;
    forall i | 0 <= i < |ps| ensures IsAdaptive(ps[i]) <==> SpellsAdaptive(ps[i]) {
      AdaptiveIff(ps[i]);
    }
  }

  lemma GivenIff(ps: seq<Pair>, o: nat)
    requires o < TOTAL
    ensures ParsePairs(NONE, ps)[o].Active? <==> Given(ps, o)
    ensures Given(ps, o) ==> ParsePairs(NONE, ps)[o].value == StoredValue(o, ps[LastOccurrence(ps, o)].1)
  {
    hide ParsePairs, StoredValue, LastOccurrence, Occurs;
    ParsingSound(NONE, ps, o);
    if exists i :: 0 <= i < |ps| && Occurs(ps[i], o) {
      var i :| 0 <= i < |ps| && Occurs(ps[i], o);
    }
  }

  lemma StoredNumber(o: nat, val: string)
    requires o < READ_TYPE && ValidValue(o, val)
    ensures Strtoul(StoredValue(o, val)).value == Strtoul(val).value
  {
    hide Strtoul, SkipSpaceAndPlus;
    if o == TSIZE && val == "0" {
      NoNumberRead("");
      NumbersRead("", "", 0, "");
      assert Print(0) == "0";
      assert "" + ("" + (Print(0) + "")) == "0";
    } else {
      StripKeepsValue(val);
    }
  }

  lemma NumberParsed(ps: seq<Pair>, o: nat, otherwise: nat)
    requires o < READ_TYPE
    ensures Number(ParsePairs(NONE, ps)[o], otherwise) == NumberGiven(ps, o, otherwise)
  {
    hide ParsePairs, StoredValue, LastOccurrence, Strtoul, ValidValue;
    GivenIff(ps, o);
    if Given(ps, o) {
      assert Occurs(ps[LastOccurrence(ps, o)], o);
      StoredNumber(o, ps[LastOccurrence(ps, o)].1);
    }
  }

  lemma InRange(ps: seq<Pair>, o: nat)
    requires o < TOTAL && Given(ps, o)
    ensures o == BLKSIZE ==> 8 <= NumberGiven(ps, o, 0) <= 65464
    ensures o == TIMEOUT ==> 1 <= NumberGiven(ps, o, 0) <= 255
    ensures o == WINDOWSIZE ==> 1 <= NumberGiven(ps, o, 0) <= 65535
  {
    hide LastOccurrence, Strtoul, Spells;
    assert Occurs(ps[LastOccurrence(ps, o)], o);
  }

  /** An option in the OACK that was not asked for. */
  predicate Unasked(c: Client, ps: seq<Pair>, o: nat)
    requires o < TOTAL == |c.options|
  {
    (Given(ps, o) || (o == TIMEOUT && GrantsAdaptive(c, ps))) && c.options[o].Inactive?
  }

  lemma AcknowledgedIff(c: Client, values: string, o: nat)
    requires o < TOTAL
    ensures var ps := DecodePairs(values, 0);
            && (Acknowledged(c, values)[o].Active? <==> Given(ps, o) || (o == TIMEOUT && GrantsAdaptive(c, ps)))
            && (o < READ_TYPE && (o != TIMEOUT || !GrantsAdaptive(c, ps)) ==>
                  forall n: nat :: Number(Acknowledged(c, values)[o], n) == NumberGiven(ps, o, n))
  {
    hide ParsePairs, DecodePairs, AsksAdaptive, Given, NumberGiven, SpellsAdaptive, Number;
    var ps := DecodePairs(values, 0);
    AdaptiveGranted(ps);
    GivenIff(ps, o);
    if o < READ_TYPE {
      forall n: nat ensures Number(ParsePairs(NONE, ps)[o], n) == NumberGiven(ps, o, n) {
        NumberParsed(ps, o, n);
      }
    }
  }

  lemma UnaskedIff(c: Client, values: string, o: nat)
    requires |c.options| == TOTAL && o < TOTAL
    ensures Acknowledged(c, values)[o].Active? && c.options[o].Inactive? <==> Unasked(c, DecodePairs(values, 0), o)
  {
    hide Acknowledged, DecodePairs, Given, GrantsAdaptive, Number;
    AcknowledgedIff(c, values, o);
  }

  predicate AnyUnasked(c: Client, ps: seq<Pair>)
    requires |c.options| == TOTAL
  {
    exists o :: 0 <= o < TOTAL && Unasked(c, ps, o)
  }

  lemma UnrequestedIff(c: Client, acked: seq<Opt>, ps: seq<Pair>)
    requires |c.options| == |acked| == TOTAL
    requires forall o :: 0 <= o < TOTAL ==> (acked[o].Active? && c.options[o].Inactive? <==> Unasked(c, ps, o))
    ensures Unrequested(c, acked) <==> AnyUnasked(c, ps)
  {
    hide Unasked;
    if Unrequested(c, acked) {
      var o :| 0 <= o < TOTAL && acked[o].Active? && c.options[o].Inactive?;
      assert Unasked(c, ps, o);
    }
    if AnyUnasked(c, ps) {
      var o :| 0 <= o < TOTAL && Unasked(c, ps, o);
      assert acked[o].Active? && c.options[o].Inactive?;
    }
  }

  /** The OACK is refused exactly when it gives an option that was not asked for. */
  lemma RefusedIff(c: Client, values: string)
    requires |c.options| == TOTAL
    ensures HandleOack(c, values).None? <==> AnyUnasked(c, DecodePairs(values, 0))
  {
    hide Acknowledged, DecodePairs, Unasked, Number, AsksAdaptive, AnyUnasked, Unrequested;
    var ps, acked := DecodePairs(values, 0), Acknowledged(c, values);
    forall o | 0 <= o < TOTAL ensures acked[o].Active? && c.options[o].Inactive? <==> Unasked(c, ps, o) {
      UnaskedIff(c, values, o);
    }
    UnrequestedIff(c, acked, ps);
  }

  lemma FitsSixteen(ps: seq<Pair>, o: nat, otherwise: uint16)
    requires o == BLKSIZE || o == WINDOWSIZE
    ensures Wrap16(NumberGiven(ps, o, otherwise)) == NumberGiven(ps, o, otherwise)
  {
    hide LastOccurrence, Strtoul;
    if Given(ps, o) {
      InRange(ps, o);
    }
    SmallNumber(NumberGiven(ps, o, otherwise));
  }

  lemma FitsEight(ps: seq<Pair>, otherwise: uint8)
    ensures Wrap8(NumberGiven(ps, TIMEOUT, otherwise)) == NumberGiven(ps, TIMEOUT, otherwise)
  {
    hide LastOccurrence, Strtoul;
    if Given(ps, TIMEOUT) {
      InRange(ps, TIMEOUT);
    }
  }

  /** Otherwise each parameter takes the value given last, or stays what it was;
      a listing that is not granted is withdrawn. */
  lemma AcceptedAs(c: Client, values: string)
    requires |c.options| == TOTAL && HandleOack(c, values).Some?
    ensures var ps, c' := DecodePairs(values, 0), HandleOack(c, values).value;
            && c'.blockSize == NumberGiven(ps, BLKSIZE, c.blockSize)
            && c'.windowSize == NumberGiven(ps, WINDOWSIZE, c.windowSize)
            && c'.tsize == NumberGiven(ps, TSIZE, c.tsize)
            && c'.useAdaptive == (if c.useAdaptive && c.request == Read then GrantsAdaptive(c, ps) else c.useAdaptive)
            && c'.timeout == (if c'.useAdaptive then c.timeout else NumberGiven(ps, TIMEOUT, c.timeout))
            && c'.options == (if Given(ps, READ_TYPE) then c.options else c.options[READ_TYPE := Inactive])
            && c'.request == c.request && c'.useOptions == c.useOptions && c'.useTsize == c.useTsize
  {
    hide Acknowledged, DecodePairs, Given, NumberGiven, Number, AsksAdaptive, SpellsAdaptive, Wrap16, Wrap8;
    var ps := DecodePairs(values, 0);
    AdaptiveGranted(ps);
    AcknowledgedIff(c, values, BLKSIZE);
    AcknowledgedIff(c, values, TIMEOUT);
    AcknowledgedIff(c, values, TSIZE);
    AcknowledgedIff(c, values, WINDOWSIZE);
    AcknowledgedIff(c, values, READ_TYPE);
    FitsSixteen(ps, BLKSIZE, c.blockSize);
    FitsSixteen(ps, WINDOWSIZE, c.windowSize);
    FitsEight(ps, c.timeout);
  }
}
