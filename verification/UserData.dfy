// Filling a granted block with user data, and what the slop bytes behind it can tell.
module UserData {
  import opened Bits
  import opened Memory
  import opened Heap
  import opened Steps
  import opened Evolve
  import L = Layout

  const MAGIC_SLOP := 0xb6
  const MAX_SLOP := 32

  /** m' differs from m only in the usable bytes of block h, whose header is now hdr. */
  ghost predicate Rewritten(m: Mem, m': Mem, h: Ptr, size: nat, hdr: ElmHdr) {
    AgreeOutside(m, m', h, size) && IsHdr(m', h) && m'[h].hdr == hdr
  }

  lemma HdrWrite(m: Mem, m': Mem, h: Ptr, size: nat, hdr: ElmHdr, hdr': ElmHdr)
    requires Rewritten(m, m', h, size, hdr) && size > 0
    ensures Rewritten(m, PutHdr(m', h, hdr'), h, size, hdr')
    ensures forall a: Ptr, n: nat, v: nat | h < a && IsFilled(m', a, n, v) :: IsFilled(PutHdr(m', h, hdr'), a, n, v)
    ensures forall a: Ptr, w: nat | h < a && IsWord(m', a, w) :: IsWord(PutHdr(m', h, hdr'), a, w)
  {
  }

  lemma FillWrite(m: Mem, m': Mem, h: Ptr, size: nat, hdr: ElmHdr, a: Ptr, n: nat, v: nat)
    requires Rewritten(m, m', h, size, hdr) && Mapped(m, h, size)
    requires h + ELM_HDR_BYTES <= a && a + n <= h + size
    ensures Rewritten(m, Fill(m', a, n, v), h, size, hdr) && IsFilled(Fill(m', a, n, v), a, n, v)
    ensures forall b: Ptr, k: nat, u: nat | a + n <= b && IsFilled(m', b, k, u) :: IsFilled(Fill(m', a, n, v), b, k, u)
    ensures forall b: Ptr, w: nat | b + WORD_SIZE <= a && IsWord(m', b, w) :: IsWord(Fill(m', a, n, v), b, w)
  {
    assert Fill(m', a, n, v).Keys == m'.Keys;
  }

  lemma WordWrite(m: Mem, m': Mem, h: Ptr, size: nat, hdr: ElmHdr, a: Ptr, w: nat)
    requires Rewritten(m, m', h, size, hdr) && Mapped(m, h, size)
    requires h + ELM_HDR_BYTES <= a && a + WORD_SIZE <= h + size
    ensures Rewritten(m, PutWord(m', a, w), h, size, hdr) && IsWord(PutWord(m', a, w), a, w)
    ensures forall b: Ptr, k: nat, u: nat | a + WORD_SIZE <= b && IsFilled(m', b, k, u) :: IsFilled(PutWord(m', a, w), b, k, u)
  {
    assert PutWord(m', a, w).Keys == m'.Keys;
  }

  /** The block is being written: nothing else has changed since memory was m, and its header is now hdr. */
  ghost predicate Writing(space: AddressSpace, m: Mem, h: Ptr, size: nat, hdr: ElmHdr)
    reads space
  {
    size >= ELM_HDR_BYTES && space.Valid() && space.CanUse(h, size) && Rewritten(m, space.mem, h, size, hdr)
  }

  method WriteHdr(space: AddressSpace, ghost m: Mem, h: Ptr, ghost size: nat, ghost old_hdr: ElmHdr, hdr: ElmHdr)
    requires Writing(space, m, h, size, old_hdr)
    modifies space`mem
    ensures Writing(space, m, h, size, hdr)
    ensures forall a: Ptr, n: nat, v: nat | h < a && IsFilled(old(space.mem), a, n, v) :: IsFilled(space.mem, a, n, v)
    ensures forall a: Ptr, w: nat | h < a && IsWord(old(space.mem), a, w) :: IsWord(space.mem, a, w)
  {
    HdrWrite(m, space.mem, h, size, old_hdr, hdr);
    space.StoreHdr(h, hdr);
  }

  method WriteFill(space: AddressSpace, ghost m: Mem, ghost h: Ptr, ghost size: nat, ghost hdr: ElmHdr, a: Ptr, n: nat, v: nat)
    requires Writing(space, m, h, size, hdr) && h + ELM_HDR_BYTES <= a && a + n <= h + size
    modifies space`mem
    ensures Writing(space, m, h, size, hdr) && IsFilled(space.mem, a, n, v)
    ensures forall b: Ptr, k: nat, u: nat | a + n <= b && IsFilled(old(space.mem), b, k, u) :: IsFilled(space.mem, b, k, u)
    ensures forall b: Ptr, w: nat | b + WORD_SIZE <= a && IsWord(old(space.mem), b, w) :: IsWord(space.mem, b, w)
  {
    FillWrite(m, space.mem, h, size, hdr, a, n, v);
    space.Memset(a, v, n);
  }

  method WriteWord(space: AddressSpace, ghost m: Mem, ghost h: Ptr, ghost size: nat, ghost hdr: ElmHdr, a: Ptr, w: nat)
    requires Writing(space, m, h, size, hdr) && h + ELM_HDR_BYTES <= a && a + WORD_SIZE <= h + size
    modifies space`mem
    ensures Writing(space, m, h, size, hdr) && IsWord(space.mem, a, w)
    ensures forall b: Ptr, k: nat, u: nat | a + WORD_SIZE <= b && IsFilled(old(space.mem), b, k, u) :: IsFilled(space.mem, b, k, u)
  {
    WordWrite(m, space.mem, h, size, hdr, a, w);
    space.StoreWord(a, w);
  }

  /** The header `memalignInt` leaves behind. */
  function StampedHdr(hdr: ElmHdr, usr: Ptr, size: nat, mis: nat): ElmHdr {
    hdr.(magic := MAGIC_INUSE, usrData := usr, usrDataSize := size, misalignment := mis)
  }

  /** m' is m after `memalignInt` has written header, slop and back pointer into block h. */
  ghost predicate Furnished(m: Mem, m': Mem, h: Ptr, bin: nat, usr: Ptr, size: nat, mis: nat) {
    && usr >= WORD_SIZE && usr + size + mis == h + Pow2(bin)
    && IsHdr(m, h) && Rewritten(m, m', h, Pow2(bin), StampedHdr(m[h].hdr, usr, size, mis))
    && IsWord(m', usr - WORD_SIZE, h)
    && IsFilled(m', usr + size, Min(mis, MAX_SLOP), MAGIC_SLOP)
  }

  /** The writes of `memalignInt` into the block `getBuf` returned; end is its guard page. */
  method Furnish(space: AddressSpace, hdr: Ptr, ghost bin: nat, ghost hdrSize: nat, end: Ptr, alignment: nat, usrSize: nat,
                 poison: bool, poisonVal: nat) returns (usrData: Ptr)
    requires space.Valid() && hdrSize >= ELM_HDR_BYTES && end == hdr + Pow2(bin)
    requires IsHdr(space.mem, hdr) && space.mem[hdr].hdr.magic == MAGIC_FREE && space.CanUse(hdr, Pow2(bin))
    requires L.AllocSize(hdrSize, alignment, usrSize) <= Pow2(bin)
    modifies space`mem
    ensures space.Valid() && usrSize <= end
    ensures Furnished(old(space.mem), space.mem, hdr, bin, usrData, usrSize, L.Misalignment(end, alignment, usrSize))
    ensures hdr + hdrSize + WORD_SIZE <= usrData && (alignment > 1 ==> usrData % alignment == 0)
    ensures poison ==> IsFilled(space.mem, usrData, usrSize, poisonVal)
  {
    hide IsFilled, IsWord, Writing, Rewritten, Pow2, L.AllocSize;
    L.LayoutFits(hdr, hdrSize, alignment, usrSize, bin);
    ghost var m := space.mem;
    ghost var size := Pow2(bin);
    var h0 := space.LoadHdr(hdr);
    StartWriting(space, hdr, size);
    var h1 := h0.(magic := MAGIC_INUSE);
    WriteHdr(space, m, hdr, size, h0, h1);
    var h2 := h1.(usrDataSize := usrSize);
    WriteHdr(space, m, hdr, size, h1, h2);
    assert end > usrSize;
    usrData := end - usrSize;
    assert usrData > hdr;
    var misalignment := 0;
    NoSlop(space.mem, end, MAGIC_SLOP);
    if alignment > 1 {
      misalignment := usrData % alignment;
      if misalignment > 0 {
        usrData := usrData - misalignment;
        WriteFill(space, m, hdr, size, h2, usrData + usrSize, Min(misalignment, MAX_SLOP), MAGIC_SLOP);
      }
    }
    WriteWord(space, m, hdr, size, h2, usrData - WORD_SIZE, hdr);
    var h3 := h2.(usrData := usrData);
    WriteHdr(space, m, hdr, size, h2, h3);
    var h4 := h3.(misalignment := misalignment);
    WriteHdr(space, m, hdr, size, h3, h4);
    if poison {
      WriteFill(space, m, hdr, size, h4, usrData, usrSize, poisonVal);
    }
    WasWriting(space, m, hdr, size, h4);
  }

  lemma StartWriting(space: AddressSpace, h: Ptr, size: nat)
    requires space.Valid() && IsHdr(space.mem, h) && space.CanUse(h, size) && size >= ELM_HDR_BYTES
    ensures Writing(space, space.mem, h, size, space.mem[h].hdr)
  {
  }

  lemma WasWriting(space: AddressSpace, m: Mem, h: Ptr, size: nat, hdr: ElmHdr)
    requires Writing(space, m, h, size, hdr)
    ensures space.Valid() && Rewritten(m, space.mem, h, size, hdr)
  {
  }

  lemma NoSlop(m: Mem, a: Ptr, v: nat)
    ensures IsFilled(m, a, 0, v)
  {
  }

  // ---------------------------------------------------------------- what a furnished block means

  /** `memalignInt` turns the block getBuf granted into a live allocation. */
  lemma CommitInv(s: State, m': Mem, h: Ptr, usr: Ptr, mis: nat)
    requires Inv(s) && h in s.blk && s.blk[h].own.Taken?
    requires Furnished(s.mem, m', h, s.blk[h].bin, usr, s.blk[h].size, mis)
    requires h + s.hdrSize + WORD_SIZE <= usr
    ensures Inv(s.(mem := m', blk := s.blk[h := s.blk[h].(own := Used, usr := usr)]))
    ensures Evolves(s, s.(mem := m', blk := s.blk[h := s.blk[h].(own := Used, usr := usr)]), h)
  {
    BlockFacts(s, h);
    Pow2Pages(s.blk[h].bin);
    var b := s.blk[h].(own := Used, usr := usr);
    CommitSound(s.mem, m', s.noAccess, s.hdrSize, h, s.blk[h], usr, mis);
    RewriteInv(s, m', h, b);
    InvGood(s);
    RewriteEvolves(s, m', h, b);
  }

  lemma CommitSound(m: Mem, m': Mem, noAccess: set<Ptr>, hdrSize: nat, h: Ptr, b: Block, usr: Ptr, mis: nat)
    requires hdrSize >= ELM_HDR_BYTES && SoundAt(m, noAccess, hdrSize, h, b) && b.own.Taken?
    requires Furnished(m, m', h, b.bin, usr, b.size, mis) && h + hdrSize + WORD_SIZE <= usr
    ensures SoundAt(m', noAccess, hdrSize, h, b.(own := Used, usr := usr))
  {
    Pow2Pages(b.bin);
  }

  /** `putBuf` marks a live block as free before it takes the lock. */
  lemma StampInv(s: State, h: Ptr)
    requires Inv(s) && h in s.blk && s.blk[h].own.Used? && HasHdr(s.mem, h)
    ensures var t := s.(mem := PutHdr(s.mem, h, s.mem[h].hdr.(magic := MAGIC_FREE)), blk := s.blk[h := s.blk[h].(own := Leaving)]);
      Inv(t) && Evolves(s, t, h)
  {
    BlockFacts(s, h);
    Pow2Pages(s.blk[h].bin);
    var m' := PutHdr(s.mem, h, s.mem[h].hdr.(magic := MAGIC_FREE));
    var b := s.blk[h].(own := Leaving);
    StampSound(s.mem, s.noAccess, s.hdrSize, h, s.blk[h]);
    RewriteInv(s, m', h, b);
    InvGood(s);
    RewriteEvolves(s, m', h, b);
  }

  lemma StampSound(m: Mem, noAccess: set<Ptr>, hdrSize: nat, h: Ptr, b: Block)
    requires hdrSize >= ELM_HDR_BYTES && SoundAt(m, noAccess, hdrSize, h, b) && b.own.Used?
    ensures SoundAt(PutHdr(m, h, m[h].hdr.(magic := MAGIC_FREE)), noAccess, hdrSize, h, b.(own := Leaving))
  {
    Pow2Pages(b.bin);
  }

  /** The slop bytes behind a live allocation are untouched. */
  ghost predicate SlopAt(m: Mem, h: Ptr, b: Block) {
    b.usr + b.size <= h + Pow2(b.bin) && IsFilled(m, b.usr + b.size, Min(h + Pow2(b.bin) - b.usr - b.size, MAX_SLOP), MAGIC_SLOP)
  }

  ghost predicate SlopOk(s: State) {
    forall h | h in s.blk && s.blk[h].own.Used? :: SlopAt(s.mem, h, s.blk[h])
  }

  /** A step about one block leaves everybody else's slop alone. */
  lemma SlopKept(s: State, t: State, h: Ptr)
    requires Inv(s) && Evolves(s, t, h) && SlopOk(s)
    requires h in t.blk && t.blk[h].own.Used? ==> SlopAt(t.mem, h, t.blk[h])
    ensures SlopOk(t)
  {
    forall y | y in t.blk && t.blk[y].own.Used? && y != h ensures SlopAt(t.mem, y, t.blk[y]) {
      assert y in s.blk && KeptAt(s.mem, t.mem, y, s.blk[y], t.blk[y]);
      BlockFacts(s, y);
    }
  }

  // ---------------------------------------------------------------- what the client sees

  /** A block that becomes live adds exactly its own pointer to the client's view. */
  lemma ClientGains(s: State, t: State, h: Ptr)
    requires Good(s) && Good(t) && Evolves(s, t, h)
    requires h in s.blk ==> !s.blk[h].own.Used?
    requires h in t.blk && t.blk[h].own.Used?
    ensures var p := t.blk[h].usr;
      p != NULL && p !in Client(s) && Mapped(t.mem, p, t.blk[h].size)
      && Client(t) == Client(s)[p := Cells(t.mem, p, t.blk[h].size)]
  {
    hide Client, Sound, Apart, Evolves;
    var p := t.blk[h].usr;
    EvolvesClient(s, t, h);
    ClientAt(t, p, h);
    MapGain(Client(s), Client(t), p);
  }

  lemma ClientAt(t: State, p: Ptr, h: Ptr)
    requires Good(t) && LiveAt(t, p, h)
    ensures p != NULL && Mapped(t.mem, p, t.blk[h].size) && p in Client(t) && Client(t)[p] == Cells(t.mem, p, t.blk[h].size)
  {
    hide Sound, Apart;
    ContentsAt(t, p, h);
    LiveUnique(t, p, h);
  }

  lemma MapGain<K, V>(c: map<K, V>, d: map<K, V>, p: K)
    requires d - {p} == c - {} && p in d
    ensures p !in c && d == c[p := d[p]]
  {
    assert p !in d - {p};
    assert c == c - {};
  }

  lemma MapLose<K, V>(c: map<K, V>, d: map<K, V>, p: K)
    requires d - {} == c - {p}
    ensures d == c - {p}
  {
    assert d == d - {};
  }

  /** A block that stops being live takes exactly its own pointer out of the client's view. */
  lemma ClientLoses(s: State, t: State, h: Ptr)
    requires Good(s) && Good(t) && Evolves(s, t, h)
    requires h in s.blk && s.blk[h].own.Used?
    requires h in t.blk ==> !t.blk[h].own.Used?
    ensures s.blk[h].usr in Client(s) && Client(t) == Client(s) - {s.blk[h].usr}
  {
    hide Client, Sound, Apart, Evolves;
    EvolvesClient(s, t, h);
    ClientAt(s, s.blk[h].usr, h);
    MapLose(Client(s), Client(t), s.blk[h].usr);
  }

  /** Any other step leaves the client's view alone. */
  lemma ClientSame(s: State, t: State, h: Ptr)
    requires Good(s) && Good(t) && Evolves(s, t, h)
    requires h in s.blk ==> !s.blk[h].own.Used?
    requires h in t.blk ==> !t.blk[h].own.Used?
    ensures Client(t) == Client(s)
  {
    hide Client, Sound, Apart, Evolves;
    EvolvesClient(s, t, h);
    MapSame(Client(s), Client(t));
  }

  lemma MapSame<K, V>(c: map<K, V>, d: map<K, V>)
    requires d - {} == c - {}
    ensures d == c
  {
    assert c == c - {} && d == d - {};
  }
}
