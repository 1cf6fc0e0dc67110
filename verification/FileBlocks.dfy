/**
 The division of a file into DATA blocks (block numbers start at 1).
 */
module FileBlocks {
  type byte = n: int | 0 <= n < 0x100

  function Joined(ps: seq<seq<byte>>): (s: seq<byte>)
  {
    if ps == [] then [] else Joined(ps[..|ps| - 1]) + ps[|ps| - 1]
  }

  /** Length of `k` full blocks. */
  function Offset(bs: nat, k: nat): (r: nat)
  {
    if k == 0 then 0 else Offset(bs, k - 1) + bs
  }

  function Min(x: nat, y: nat): (r: nat)
  {
    if x <= y then x else y
  }

  /** The first `n` blocks of a file, as one string. */
  function FirstBlocks(file: seq<byte>, bs: nat, n: nat): (r: seq<byte>)
  {
    file[..Min(Offset(bs, n), |file|)]
  }

  /** Payload of block `k`. */
  function BlockOf(file: seq<byte>, bs: nat, k: nat): (r: seq<byte>)
    requires 1 <= k
  {
    if Offset(bs, k - 1) <= |file| then file[Offset(bs, k - 1)..Min(Offset(bs, k), |file|)] else []
  }

  /** Block `k` exists and is the short one that ends the transfer. */
  predicate IsLastBlock(file: seq<byte>, bs: nat, k: nat)
  {
    1 <= k && Offset(bs, k - 1) <= |file| < Offset(bs, k)
  }

  lemma {:induction false} OffsetIsProduct(bs: nat, k: nat)
    ensures Offset(bs, k) == k * bs
  {
    if k != 0 {
      OffsetIsProduct(bs, k - 1);
    }
  }

  lemma {:induction false} OffsetMonotonic(bs: nat, j: nat, k: nat)
    requires j <= k
    ensures Offset(bs, j) <= Offset(bs, k)
  {
    if j < k {
      OffsetMonotonic(bs, j, k - 1);
    }
  }

  lemma FirstBlocksArePrefix(file: seq<byte>, bs: nat, n: nat)
    ensures FirstBlocks(file, bs, n) <= file
  {
  }

  /** Blocks are consecutive pieces of the file. */
  lemma FirstBlocksExtend(file: seq<byte>, bs: nat, n: nat)
    requires Offset(bs, n) <= |file|
    ensures FirstBlocks(file, bs, n) + BlockOf(file, bs, n + 1) == FirstBlocks(file, bs, n + 1)
  {
  }

  /** A block is short exactly when it is the last one, and then the blocks up
      to it are the whole file. */
  lemma ShortBlockIsLast(file: seq<byte>, bs: nat, k: nat)
    requires 1 <= k && Offset(bs, k - 1) <= |file|
    ensures |BlockOf(file, bs, k)| <= bs
    ensures |BlockOf(file, bs, k)| < bs <==> IsLastBlock(file, bs, k)
    ensures IsLastBlock(file, bs, k) ==> FirstBlocks(file, bs, k) == file
  {
  }

  lemma LastBlockUnique(file: seq<byte>, bs: nat, j: nat, k: nat)
    requires IsLastBlock(file, bs, j) && IsLastBlock(file, bs, k)
    ensures j == k
  {
    if j < k {
      OffsetMonotonic(bs, j, k - 1);
    } else if k < j {
      OffsetMonotonic(bs, k, j - 1);
    }
  }

  /** Number of the last block of a file. */
  function LastBlock(file: seq<byte>, bs: nat): (r: nat)
    requires 1 <= bs
  {
    |file| / bs + 1
  }

  lemma LastBlockIsLast(file: seq<byte>, bs: nat)
    requires 1 <= bs
    ensures IsLastBlock(file, bs, LastBlock(file, bs))
  {
    OffsetIsProduct(bs, |file| / bs);
  }

  /** The blocks that exist are those up to the last. */
  lemma BlockExistsIff(file: seq<byte>, bs: nat, k: nat)
    requires 1 <= bs && 1 <= k
    ensures Offset(bs, k - 1) <= |file| <==> k <= LastBlock(file, bs)
  {
    var n := LastBlock(file, bs);
    LastBlockIsLast(file, bs);
    if k <= n {
      OffsetMonotonic(bs, k - 1, n - 1);
    } else {
      OffsetMonotonic(bs, n, k - 1);
    }
  }
}
