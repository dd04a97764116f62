/** The sizes of a device: the checks on its block size, its capacity in kernel
    sectors, and what a bio within the capacity may ask of the client. */
module Geometry {
  import opened Segments
  import opened Words
  import opened DeviceSpec

  // ---- The power-of-two test -----------------------------------------------------------------

  /** Bitwise and. */
  function And(x: nat, y: nat): (r: nat)
    ensures r <= x && r <= y
  {
    if x == 0 || y == 0 then 0 else 2 * And(x / 2, y / 2) + (x % 2) * (y % 2)
  }

  function Pow2(k: nat): (p: nat)
    ensures p > 0
  {
    if k == 0 then 1 else 2 * Pow2(k - 1)
  }

  lemma {:induction false} AndSelf(x: nat)
    ensures And(x, x) == x
  {
    if x > 0 {
      AndSelf(x / 2);
    }
  }

  lemma {:induction false} AndOfPower(k: nat)
    ensures And(Pow2(k), Pow2(k) - 1) == 0
  {
    if k > 0 {
      AndOfPower(k - 1);
      var y := Pow2(k - 1);
      assert 2 * y / 2 == y && (2 * y - 1) / 2 == y - 1;
    }
  }

  lemma {:induction false} PowerOfAnd(x: nat) returns (k: nat)
    requires x > 0 && And(x, x - 1) == 0
    ensures x == Pow2(k)
  {
    if x % 2 == 1 {
      AndSelf(x / 2);
      k := 0;
    } else {
      assert (x - 1) / 2 == x / 2 - 1;
      k := PowerOfAnd(x / 2);
      k := k + 1;
    }
  }

  /** x & (x - 1) is zero exactly for the powers of two. */
  lemma PowerOfTwoIff(x: nat)
    requires x > 0
    ensures And(x, x - 1) == 0 <==> exists k: nat :: x == Pow2(k)
  {
    if And(x, x - 1) == 0 {
      var k := PowerOfAnd(x);
    }
    forall k: nat | x == Pow2(k) ensures And(x, x - 1) == 0 {
      AndOfPower(k);
    }
  }

  lemma {:induction false} Pow2Split(j: nat, k: nat)
    requires j <= k
    ensures Pow2(k) == Pow2(k - j) * Pow2(j)
  {
    if k > j {
      Pow2Split(j, k - 1);
    }
  }

  lemma {:induction false} Pow2Grows(j: nat, k: nat)
    requires j <= k
    ensures Pow2(j) <= Pow2(k)
  {
    if j < k {
      Pow2Grows(j, k - 1);
    }
  }

  /** A power of two that is no smaller than a sector is a whole number of sectors. */
  lemma BlockIsSectors(block: nat)
    requires block >= SECTOR_SIZE && And(block, block - 1) == 0
    ensures block % SECTOR_SIZE == 0
  {
    var k := PowerOfAnd(block);
    assert Pow2(9) == 2 * (2 * (2 * (2 * (2 * (2 * (2 * (2 * Pow2(1)))))))) == SECTOR_SIZE;
    if k < 9 {
      Pow2Grows(k, 8);
    }
    Pow2Split(9, k);
  }

  // ---- A device's sizes ----------------------------------------------------------------------

  datatype Geo = Geo(block: nat, nsectors: nat, size: nat, capacity: nat)

  /** The size checks of a create. */
  predicate SizesOk(block: nat, size: nat) {
    SECTOR_SIZE <= block <= PAGE_SIZE && And(block, block - 1) == 0 && size % block == 0
  }

  function Created(block: nat, size: nat): Geo
    requires block > 0
  {
    Geo(block, size / block, size, size / SECTOR_SIZE)
  }

  /** A resize; the capacity is set before the revalidation that may fail. */
  function Resized(g: Geo, size: nat, revalidates: bool): Geo {
    if revalidates then g.(capacity := size / SECTOR_SIZE, size := size)
    else g.(capacity := size / SECTOR_SIZE)
  }

  lemma WholeSectors(size: nat, block: nat)
    requires block > 0 && size % block == 0 && block % SECTOR_SIZE == 0
    ensures size % SECTOR_SIZE == 0
  {
    var q, p := size / block, block / SECTOR_SIZE;
    assert size == q * (p * SECTOR_SIZE) == (q * p) * SECTOR_SIZE;
  }

  /** After a create the size and the block size are those asked for, the capacity is
      exactly the size, and so are the blocks. */
  lemma CreatedIsExact(block: nat, size: nat)
    requires SizesOk(block, size)
    ensures var g := Created(block, size);
            && g.size == size && g.block == block
            && g.capacity * SECTOR_SIZE == g.size && g.nsectors * g.block == g.size
  {
    BlockIsSectors(block);
    WholeSectors(size, block);
  }

  /** The capacity never promises more than the size. */
  predicate Covers(g: Geo) {
    g.capacity * SECTOR_SIZE <= g.size < WORD_LIMIT
  }

  /** A resize keeps the capacity within the size exactly when it revalidates or
      asks for no more whole sectors than the old size holds: a failed one leaves
      the new capacity with the old size. */
  lemma ResizeCoversIff(g: Geo, size: nat, revalidates: bool)
    requires Covers(g) && size < WORD_LIMIT
    ensures Covers(Resized(g, size, revalidates))
            <==> revalidates || size - size % SECTOR_SIZE <= g.size
  {
  }

  /** A resize from 512 to 1024 bytes that fails to revalidate: two sectors on offer for
      the 512 bytes there are. */
  lemma FailedResizeOverpromises()
    ensures var g := Resized(Created(512, 512), 1024, false);
            g.capacity == 2 && g.size == 512 && !Covers(g)
  {
  }

  /** The block count is not brought up to date: it stays that of the size the
      device was created with. */
  lemma ResizeForgetsBlocks(g: Geo, size: nat)
    requires g.nsectors * g.block == g.size
    ensures var r := Resized(g, size, true);
            r.nsectors * r.block == r.size <==> size == g.size
  {
  }

  /** A resize may leave bytes that no sector reaches: exactly when the size is not
      whole sectors.  No block multiple is asked for. */
  lemma ResizeExactIff(g: Geo, size: nat)
    ensures var r := Resized(g, size, true);
            r.capacity * SECTOR_SIZE == r.size <==> size % SECTOR_SIZE == 0
  {
  }

  /** A bio within the capacity lies within the device, and the header that tells
      the client of it is not truncated. */
  lemma InCapacity(g: Geo, a: nat, bio: Bio, sectors: nat)
    requires Covers(g) && a < WORD_LIMIT
    requires bio.size == sectors * SECTOR_SIZE && bio.sector + sectors <= g.capacity
    ensures bio.sector * SECTOR_SIZE + bio.size <= g.size
    ensures var req := Parse(Header(TxReqOf(a, bio)));
            && req.id == a && req.offset == bio.sector * SECTOR_SIZE && req.size == bio.size
            && req.offset + req.size <= g.size
  {
    HeaderRoundTrip(TxReqOf(a, bio));
  }
}
