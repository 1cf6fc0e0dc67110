/**
 Sixteen-bit block numbers, the circular window test and the ring index that
 the server and the client share.
 */
module BlockNumbers {
  const WRAP := 0x1_0000

  type uint16 = n: int | 0 <= n < 0x1_0000
  type uint8 = n: int | 0 <= n < 0x100

  /** Truncation to `uint16_t`. */
  function Wrap16(n: int): (r: uint16)
  {
    n % WRAP
  }

  function Wrap8(n: int): (r: uint8)
  {
    n % 0x100
  }

  /** `is_in_range` of session.c and client.c. */
  predicate IsInRange(n: uint16, begin: uint16, end: uint16)
  {
    if begin <= end then begin <= n <= end else begin <= n || n <= end
  }

  /** On the circle, the test measures the distance from `begin`; a window of
      width zero (`end == begin - 1`) is indistinguishable from the full circle. */
  lemma IsInRangeMeasuresDistance(n: int, b: int, e: int)
    requires b <= e <= b + WRAP
    ensures IsInRange(Wrap16(n), Wrap16(b), Wrap16(e - 1)) <==> e == b || Wrap16(n - b) < e - b
  {
    assert Wrap16(n - b) == if Wrap16(n) >= Wrap16(b) then Wrap16(n) - Wrap16(b) else Wrap16(n) - Wrap16(b) + WRAP;
    if e > b {
      assert Wrap16(e - 1) == if Wrap16(b) + (e - 1 - b) < WRAP then Wrap16(b) + (e - 1 - b) else Wrap16(b) + (e - 1 - b) - WRAP;
    } else {
      assert Wrap16(e - 1) == if Wrap16(b) == 0 then WRAP - 1 else Wrap16(b) - 1;
    }
  }

  /** For a number within one turn of a non-empty window the test decides
      exactly the unbounded window test. */
  lemma IsInRangeDecidesWindow(n: int, b: int, e: int)
    requires b < e <= b + WRAP
    requires e - WRAP <= n < b + WRAP
    ensures IsInRange(Wrap16(n), Wrap16(b), Wrap16(e - 1)) <==> b <= n < e
  {
    IsInRangeMeasuresDistance(n, b, e);
  }

  /** The hypothesis is exact: for a number below the window, the test is
      right if and only if the window is non-empty and the number lies less
      than one turn below its end. */
  lemma IsInRangeRightBelowIff(n: int, b: int, e: int)
    requires b <= e <= b + WRAP && b - WRAP <= n < b
    ensures (IsInRange(Wrap16(n), Wrap16(b), Wrap16(e - 1)) <==> b <= n < e) <==> b < e && e - WRAP <= n
  {
    IsInRangeMeasuresDistance(n, b, e);
  }

  /** Two numbers less than one turn apart are equal exactly when their
      truncations are. */
  lemma Wrap16Injective(m: int, n: int)
    requires -WRAP < m - n < WRAP
    ensures Wrap16(m) == Wrap16(n) <==> m == n
  {
  }

  /** Ring index of block `i` in a window of `w` slots. */
  function SlotOf(i: uint16, w: nat): (r: nat)
    requires 1 <= w
    ensures r < w
  {
    Wrap16(i - 1) % w
  }

  lemma SmallMultipleIsZero(w: int, k: int)
    requires 0 < w && -w < w * k < w
    ensures k == 0
  {
  }

  lemma QuotientUnique(w: int, q: int, r: int, q': int, r': int)
    requires 0 < w && 0 <= r < w && 0 <= r' < w
    requires w * q + r == w * q' + r'
    ensures q == q' && r == r'
  {
    assert w * (q - q') == r' - r;
    SmallMultipleIsZero(w, q - q');
  }

  lemma DivModUnique(x: int, w: int, q: int, r: int)
    requires 0 < w && 0 <= r < w && x == w * q + r
    ensures x / w == q && x % w == r
  {
    QuotientUnique(w, q, r, x / w, x % w);
  }

  /** Numbers less than `w` apart have different residues. */
  lemma ResiduesDistinct(x: int, y: int, w: int)
    requires 0 < w && x < y < x + w
    ensures x % w != y % w
  {
    var q, r, d := x / w, x % w, y - x;
    if r + d < w {
      DivModUnique(y, w, q, r + d);
    } else {
      assert w * (q + 1) == w * q + w;
      DivModUnique(y, w, q + 1, r + d - w);
    }
  }

  lemma SmallNumber(n: int)
    requires 0 <= n < WRAP
    ensures Wrap16(n) == n
  {
  }

  lemma NextNumber(n: int)
    ensures Wrap16(Wrap16(n) + 1) == Wrap16(n + 1)
  {
  }

  lemma NotEmpty(begin: uint16, next: uint16)
    requires begin != next
    ensures 1 <= Wrap16(next - begin)
  {
  }

  lemma LastOfWindow(begin: uint16, next: uint16)
    ensures Wrap16(begin + Wrap16(next - begin) - 1) == Wrap16(next - 1)
  {
  }

  /** Walking up from `begin`, the window test fails first after
      `next - begin` blocks, also across the wrap. */
  lemma WindowTest(begin: uint16, next: uint16, n: nat)
    requires begin != next && n <= Wrap16(next - begin)
    ensures IsInRange(Wrap16(begin + n), begin, Wrap16(next - 1)) <==> n < Wrap16(next - begin)
  {
    hide IsInRange, Wrap16;
    var length := Wrap16(next - begin);
    IsInRangeMeasuresDistance(begin + n, begin, begin + length);
    SmallNumber(begin);
    SmallNumber(n);
    LastOfWindow(begin, next);
    NotEmpty(begin, next);
  }

  /** The test for room in a window of `w` measures the distance of `next`. */
  lemma RoomIsDistance(begin: uint16, next: uint16, w: uint16)
    requires 1 <= w
    ensures IsInRange(next, begin, Wrap16(begin + w - 1)) <==> Wrap16(next - begin) < w
  {
    IsInRangeMeasuresDistance(next, begin, begin + w);
    SmallNumber(begin);
    SmallNumber(next);
    hide IsInRange;
  }

  /** One more block sent, on the circle. */
  lemma DistanceAfterSend(begin: uint16, next: uint16)
    ensures Wrap16(Wrap16(next + 1) - begin) ==
              if Wrap16(next - begin) == WRAP - 1 then 0 else Wrap16(next - begin) + 1
  {
  }

  /** Acknowledging `a` leaves the window a full circle less one exactly when
      `a` is the number that has not been sent yet, and empty exactly when `a`
      is the one before. */
  lemma DistanceAfterAck(a: uint16, next: uint16)
    ensures Wrap16(next - Wrap16(a + 1)) == WRAP - 1 <==> a == next
    ensures Wrap16(next - Wrap16(a + 1)) == 0 <==> Wrap16(a + 1) == next
  {
  }

  lemma EmptyIsZero(begin: uint16, next: uint16)
    ensures Wrap16(next - begin) == 0 <==> begin == next
  {
  }

  /** The guard of the loop that sends a window again, in turn `k`: the number
      counted up from `begin` lies in the window. */
  predicate Guard(begin: uint16, next: uint16, k: nat)
  {
    IsInRange(Wrap16(begin + k), begin, Wrap16(next as int - 1))
  }

  /** The loop goes through `n` turns. */
  predicate Turns(begin: uint16, next: uint16, n: nat)
  {
    forall k: nat :: k < n ==> Guard(begin, next, k)
  }

  /** It stops after `n` turns. */
  predicate EndsAfter(begin: uint16, next: uint16, n: nat)
  {
    Turns(begin, next, n) && !Guard(begin, next, n)
  }

  lemma FullCircle(b: uint16, k: nat)
    ensures Guard(b, b, k)
  {
    IsInRangeMeasuresDistance(b + k, b, b);
    SmallNumber(b);
    hide IsInRange;
  }

  lemma GuardTest(begin: uint16, next: uint16, k: nat)
    requires begin != next && k <= Wrap16(next - begin)
    ensures Guard(begin, next, k) <==> k < Wrap16(next - begin)
  {
    WindowTest(begin, next, k);
    hide IsInRange, Wrap16;
  }

  /** On an empty window the loop goes on for ever; otherwise it stops after
      exactly as many turns as there are blocks in the window. */
  lemma LoopEndsIff(begin: uint16, next: uint16)
    ensures (exists n: nat :: EndsAfter(begin, next, n)) <==> begin != next
    ensures forall n: nat :: EndsAfter(begin, next, n) ==> n == Wrap16(next - begin)
    ensures begin == next ==> forall n: nat :: Turns(begin, next, n)
  {
    hide Guard;
    if begin == next {
      forall k: nat ensures Guard(begin, next, k) {
        FullCircle(begin, k);
      }
    } else {
      var length: nat := Wrap16(next - begin);
      forall k: nat | k <= length ensures Guard(begin, next, k) <==> k < length {
        GuardTest(begin, next, k);
      }
      assert EndsAfter(begin, next, length);
    }
  }
}
