/**
 Where absolute (unbounded) block numbers land in the ring of data packets.
 */
module RingSlots {
  import opened BlockNumbers

  /** Ring slot of absolute block `k`; the code computes it from the truncated number. */
  function RingIndex(k: nat, w: nat): (r: nat)
    requires 1 <= w
  {
    SlotOf(Wrap16(k), w)
  }

  /** Both blocks belong to the same turn of the 16-bit counter, where turn
      zero is blocks 1 to 65536. */
  predicate SameTurn(j: int, k: int)
  {
    (j - 1) / WRAP == (k - 1) / WRAP
  }

  /** The hypothesis under which a whole transfer may use the ring: either the
      window size divides 65536 or no block number exceeds 65536. */
  predicate RingSafe(w: nat, lastBlock: nat)
    requires 1 <= w
  {
    WRAP % w == 0 || lastBlock <= WRAP
  }

  lemma SlotUnfold(k: nat, w: nat)
    requires 1 <= w && 1 <= k
    ensures RingIndex(k, w) == Wrap16(k - 1) % w
  {
    assert Wrap16(Wrap16(k) - 1) == Wrap16(k - 1);
  }

  lemma SameTurnOffsets(j: nat, k: nat)
    requires 1 <= j && 1 <= k && SameTurn(j, k)
    ensures Wrap16(k - 1) - Wrap16(j - 1) == k - j
  {
  }

  lemma SlotOfDivisor(k: nat, w: nat)
    requires 1 <= w && WRAP % w == 0 && 1 <= k
    ensures RingIndex(k, w) == (k - 1) % w
  {
    var x := k - 1;
    var a, r := x / WRAP, x % WRAP;
    var q := WRAP / w;
    assert WRAP == w * q;
    assert x == w * (q * a + r / w) + r % w by {
      assert w * (q * a + r / w) == (w * q) * a + w * (r / w);
    }
    DivModUnique(x, w, q * a + r / w, r % w);
    SlotUnfold(k, w);
  }

  lemma SlotsDistinct(j: nat, k: nat, w: nat)
    requires 1 <= j < k < j + w
    requires WRAP % w == 0 || SameTurn(j, k)
    ensures RingIndex(j, w) != RingIndex(k, w)
  {
    if WRAP % w == 0 {
      SlotOfDivisor(j, w);
      SlotOfDivisor(k, w);
      ResiduesDistinct(j - 1, k - 1, w);
    } else {
      SameTurnOffsets(j, k);
      ResiduesDistinct(Wrap16(j - 1), Wrap16(k - 1), w);
      SlotUnfold(j, w);
      SlotUnfold(k, w);
    }
  }

  lemma FirstTurn(j: int)
    requires 1 <= j <= WRAP
    ensures (j - 1) / WRAP == 0
  {
  }

  lemma SlotsDistinctWhenRingSafe(j: nat, k: nat, w: nat, lastBlock: nat)
    requires 1 <= j <= lastBlock && 1 <= k <= lastBlock && j - k < w && k - j < w && j != k
    requires RingSafe(w, lastBlock)
    ensures RingIndex(j, w) != RingIndex(k, w)
  {
    hide RingIndex;
    if WRAP % w != 0 {
      FirstTurn(j);
      FirstTurn(k);
    }
    if j < k {
      SlotsDistinct(j, k, w);
    } else {
      SlotsDistinct(k, j, w);
    }
  }

  /** Before the counter wraps, blocks of one window never share a slot. */
  lemma SlotsDistinctUnwrapped(j: uint16, k: uint16, w: nat)
    requires 1 <= j < k < j + w
    ensures SlotOf(j, w) != SlotOf(k, w)
  {
    hide SlotOf;
    SlotsDistinctWhenRingSafe(j, k, w, WRAP);
    assert Wrap16(j) == j && Wrap16(k) == k;
  }

  predicate AllSlotsDistinct(b: nat, w: nat)
    requires 1 <= w
  {
    forall j, k :: b <= j < k < b + w ==> RingIndex(j, w) != RingIndex(k, w)
  }

  /** Number of blocks of the window in its first turn. */
  lemma TurnEdge(b: nat, w: nat) returns (p: nat)
    requires 1 <= b && 2 <= w < WRAP && !SameTurn(b, b + w - 1)
    ensures 1 <= p < w && (b + p - 1) % WRAP == 0
  {
    p := ((b - 1) / WRAP + 1) * WRAP - b + 1;
  }

  lemma IndexBeforeEdge(edge: nat, d: nat)
    requires edge % WRAP == 0 && 1 <= d < WRAP
    ensures Wrap16(edge - d) == WRAP - d
  {
  }

  lemma IndexAfterEdge(edge: nat, d: nat)
    requires edge % WRAP == 0 && d < WRAP
    ensures Wrap16(edge + d) == d
  {
  }

  /** A window that crosses a turn, with a size that does not divide 65536,
      puts two of its blocks in one slot. */
  lemma CollisionAcrossTurns(b: nat, w: nat) returns (j: nat, k: nat)
    requires 1 <= b && 2 <= w < WRAP
    requires WRAP % w != 0 && !SameTurn(b, b + w - 1)
    ensures b <= j < k < b + w && RingIndex(j, w) == RingIndex(k, w)
  {
    hide RingIndex, SameTurn, Wrap16;
    var p := TurnEdge(b, w);
    var c := WRAP % w;
    var edge := b + p - 1;
    assert WRAP == w * (WRAP / w) + c;
    if c <= p {
      j, k := edge - c + 1, edge + 1;
      IndexBeforeEdge(edge, c);
      DivModUnique(WRAP - c, w, WRAP / w, 0);
      DivModUnique(0, w, 0, 0);
    } else {
      j, k := b, edge + (c - p) + 1;
      IndexBeforeEdge(edge, p);
      DivModUnique(WRAP - p, w, WRAP / w, c - p);
      DivModUnique(c - p, w, 0, c - p);
    }
    SlotUnfold(j, w);
    SlotUnfold(k, w);
    IndexAfterEdge(edge, k - 1 - edge);
  }

  lemma SameTurnWithin(b: int, e: int, j: int, k: int)
    requires b <= j <= k <= e && SameTurn(b, e)
    ensures SameTurn(j, k)
  {
  }

  /** Exactly when a full window fits the ring. */
  lemma RingSlotsDistinctIff(b: nat, w: nat)
    requires 1 <= b && 2 <= w < WRAP
    ensures AllSlotsDistinct(b, w) <==> WRAP % w == 0 || SameTurn(b, b + w - 1)
  {
    hide RingIndex, SameTurn;
    if WRAP % w == 0 || SameTurn(b, b + w - 1) {
      forall j, k | b <= j < k < b + w ensures RingIndex(j, w) != RingIndex(k, w) {
        if WRAP % w != 0 {
          SameTurnWithin(b, b + w - 1, j, k);
        }
        SlotsDistinct(j, k, w);
      }
    } else {
      var j, k := CollisionAcrossTurns(b, w);
      assert b <= j < k < b + w && RingIndex(j, w) == RingIndex(k, w);
    }
  }
}
