// Where `memalignInt` puts user data inside a block.
module Layout {
  import opened Bits
  import opened Memory
  import opened Heap

  /** Header, traces, back pointer, user data, and room to align it. */
  function AllocSize(hdrSize: nat, alignment: nat, usrSize: nat): nat {
    hdrSize + WORD_SIZE + usrSize + (if alignment > 1 then alignment else 0)
  }

  /** The allocator can index its bins with this request: `getBuf` does not check. */
  predicate Servable(allocSize: nat) {
    allocSize <= Pow2(MAX_ALLOC_POWER - 1)
  }

  lemma ServableFits(v: nat)
    requires Servable(v)
    ensures v < Pow2(64) && Max(PAGE_SIZE, v) < Pow2(64) && Max(PAGE_SIZE, v) <= Pow2(MAX_ALLOC_POWER - 1)
  {
    Pow2Mono(MAX_ALLOC_POWER - 1, 64);
    Pow2Mono(MIN_BIN, MAX_ALLOC_POWER - 1);
    Pow2Pages(MIN_BIN);
  }

  function BinFor(allocSize: nat): nat
    requires Servable(allocSize)
  {
    ServableFits(allocSize);
    Log2Fast(Max(PAGE_SIZE, allocSize))
  }

  /** The bin's blocks are the smallest power of two, of at least a page, that covers the request. */
  lemma BinIsTight(v: nat)
    requires Servable(v)
    ensures MIN_BIN <= BinFor(v) < MAX_ALLOC_POWER
    ensures Max(PAGE_SIZE, v) <= Pow2(BinFor(v))
    ensures forall k: nat :: Max(PAGE_SIZE, v) <= Pow2(k) ==> BinFor(v) <= k
  {
    ServableFits(v);
    Log2FastCeiling(Max(PAGE_SIZE, v));
    Pow2Pages(MIN_BIN);
    if BinFor(v) < MIN_BIN {
      Pow2Mono(BinFor(v), MIN_BIN);
    }
  }

  /** Of all blocks of at least a page, bin has the smallest that hold a header, the back pointer, the data, and
      room to align it. */
  ghost predicate SmallestBin(hdrSize: nat, bin: nat, alignment: nat, size: nat) {
    bin >= 12 && forall k: nat | k >= 12 :: bin <= k <==> hdrSize + 8 + size + (if alignment > 1 then alignment else 0) <= Pow2(k)
  }

  lemma BinSmallest(hdrSize: nat, alignment: nat, size: nat)
    requires Servable(AllocSize(hdrSize, alignment, size))
    ensures SmallestBin(hdrSize, BinFor(AllocSize(hdrSize, alignment, size)), alignment, size)
  {
    hide Pow2, BinFor, Servable;
    var v := AllocSize(hdrSize, alignment, size);
    BinIsTight(v);
    forall k: nat | k >= MIN_BIN ensures BinFor(v) <= k <==> v <= Pow2(k) {
      Pow2Pages(k);
      if BinFor(v) <= k { Pow2Mono(BinFor(v), k); }
    }
  }

  function Misalignment(end: Ptr, alignment: nat, usrSize: nat): nat
    requires usrSize <= end
  {
    if alignment > 1 then (end - usrSize) % alignment else 0
  }

  lemma ModBelow(x: nat, m: nat)
    requires m > 0
    ensures x % m < m && x % m <= x && (x - x % m) % m == 0
  {
    var q := x / m;
    assert x - x % m == q * m;
    MultipleMod(q, m);
  }

  lemma MultipleMod(q: nat, m: nat)
    requires m > 0
    ensures (q * m) % m == 0
  {
    var a := q * m;
    var d := q - a / m;
    assert d * m == a % m;
    assert d >= 1 ==> d * m >= m;
    assert d <= -1 ==> d * m <= 0 - m;
  }

  /** Header, traces and back pointer end before the user data, which is aligned and, with its
      misalignment, runs exactly to the guard page. */
  lemma LayoutFits(h: Ptr, hdrSize: nat, alignment: nat, usrSize: nat, bin: nat)
    requires AllocSize(hdrSize, alignment, usrSize) <= Pow2(bin)
    ensures usrSize <= h + Pow2(bin)
    ensures var mis := Misalignment(h + Pow2(bin), alignment, usrSize);
      && usrSize + mis <= h + Pow2(bin)
      && var usr := h + Pow2(bin) - usrSize - mis;
      && h + hdrSize + WORD_SIZE <= usr
      && usr + usrSize + mis == h + Pow2(bin)
      && mis < Max(alignment, 1)
      && (alignment > 1 ==> usr % alignment == 0)
  {
    if alignment > 1 {
      ModBelow(h + Pow2(bin) - usrSize, alignment);
    }
  }

  /** `malloc` picks its alignment from the size. */
  function MallocAlignment(usrSize: nat): nat {
    if usrSize > WORD_SIZE then 16 else 8
  }

  lemma Gap16(end: nat, size: nat)
    requires end % 4096 == 0 && size <= end
    ensures (end - size) % 16 == (16 - size % 16) % 16
  {
    assert end % 16 == 0;
  }

  lemma Gap8(end: nat, size: nat)
    requires end % 4096 == 0 && size <= end
    ensures (end - size) % 8 == (8 - size % 8) % 8
  {
    assert end % 8 == 0;
  }

  /** The gap `malloc` leaves before a guard page at `end`: what rounds the size up to a multiple of 16, or of 8
      if it is at most 8. */
  lemma MallocGap(end: Ptr, usrSize: nat)
    requires end % PAGE_SIZE == 0 && usrSize <= end
    ensures Misalignment(end, MallocAlignment(usrSize), usrSize) ==
      if usrSize > 8 then (16 - usrSize % 16) % 16 else (8 - usrSize % 8) % 8
  {
    Gap16(end, usrSize);
    Gap8(end, usrSize);
  }
}
