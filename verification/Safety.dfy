// What the debugging allocator promises its client in any one state.
module Safety {
  import opened Bits
  import opened Memory
  import opened Heap
  import opened Steps
  import opened Evolve
  import opened UserData
  import opened Calls
  import L = Layout

  /** The parts of a live allocation's block follow each other without overlap: header and traces, back
      pointer, user bytes, slop, guard page. */
  lemma LayoutSeparated(s: State, p: Ptr, h: Ptr)
    requires Inv(s) && LiveAt(s, p, h)
    ensures var e := h + Pow2(s.blk[h].bin);
      h + s.hdrSize <= p - WORD_SIZE && IsWord(s.mem, p - WORD_SIZE, h)
      && p + s.blk[h].size + s.mem[h].hdr.misalignment == e && Blocked(s.noAccess, e, PAGE_SIZE)
  {
    InvGood(s);
    LiveUnique(s, p, h);
    BlockFacts(s, h);
  }

  /** A byte of a live allocation is a byte of no other live allocation, and lies in no other block at all. */
  lemma LiveBytesExclusive(s: State, p: Ptr, h: Ptr, a: Ptr, g: Ptr)
    requires Inv(s) && LiveAt(s, p, h) && p <= a < p + s.blk[h].size
    requires g in s.blk && g <= a < g + Span(s.blk[g])
    ensures g == h
  {
    BlockFacts(s, h);
    InvGood(s);
    LiveUnique(s, p, h);
  }

  /** While a block is in quarantine every access to it faults. */
  lemma UseAfterFreeFaults(s: State, h: Ptr, a: Ptr)
    requires Inv(s) && h in s.blk && s.blk[h].own.Delayed? && h <= a < h + Span(s.blk[h])
    ensures a in s.noAccess
  {
    BlockFacts(s, h);
  }

  /** Protection is exact inside carved extents: an address there is inaccessible exactly if it is in the
      guard page or its block is in quarantine. */
  lemma ProtectionExact(s: State, h: Ptr, a: Ptr)
    requires Inv(s) && h in s.blk && !s.blk[h].own.Loose? && h <= a < h + Span(s.blk[h])
    ensures a in s.noAccess <==> (s.blk[h].own.Delayed? || h + Pow2(s.blk[h].bin) <= a)
  {
    BlockFacts(s, h);
  }

  // ---------------------------------------------------------------- overruns

  /** The program has written behind the data of the allocation in block h, short of the guard page. */
  ghost predicate Overruns(s: State, m': Mem, h: Ptr) {
    && h in s.blk && s.blk[h].own.Used? && s.blk[h].usr + s.blk[h].size <= h + Pow2(s.blk[h].bin)
    && AgreeOutside(s.mem, m', s.blk[h].usr + s.blk[h].size, h + Pow2(s.blk[h].bin) - s.blk[h].usr - s.blk[h].size)
  }

  /** However much of the gap an overrun overwrites, the heap stays consistent, nobody's data changes, and the
      next free of this allocation fails exactly if one of the first min(misalignment, 32) bytes behind the
      data is not the slop value; every other free is as before. */
  lemma OverrunVerdict(s: State, m': Mem, h: Ptr)
    requires Inv(s) && Overruns(s, m', h)
    ensures var t := s.(mem := m'); Inv(t) && Good(s) && Good(t) && Client(t) == Client(s)
    ensures var b := s.blk[h]; var gap := h + Pow2(b.bin) - b.usr - b.size;
      FreeVerdict(s.(mem := m'), h) == if IsFilled(m', b.usr + b.size, Min(gap, MAX_SLOP), MAGIC_SLOP) then Frees else Aborts
    ensures forall g | g in s.blk && g != h :: FreeVerdict(s.(mem := m'), g) == FreeVerdict(s, g)
  {
    hide Sound, Apart, Owned, Client, Evolves, SlopAt;
    var t := s.(mem := m');
    OverrunInv(s, m', h);
    InvGood(s);
    InvGood(t);
    OverrunClient(s, t, h);
    forall g | g in s.blk && g != h ensures FreeVerdict(t, g) == FreeVerdict(s, g) {
      if s.blk[g].own.Used? {
        BystanderSlop(s, t, h, g);
      }
    }
    assert SlopAt(m', h, s.blk[h]) <==>
      IsFilled(m', s.blk[h].usr + s.blk[h].size, Min(h + Pow2(s.blk[h].bin) - s.blk[h].usr - s.blk[h].size, MAX_SLOP), MAGIC_SLOP)
    by { SlopMeans(m', h, s.blk[h]); }
  }

  lemma SlopMeans(m: Mem, h: Ptr, b: Block)
    requires b.usr + b.size <= h + Pow2(b.bin)
    ensures SlopAt(m, h, b) <==> IsFilled(m, b.usr + b.size, Min(h + Pow2(b.bin) - b.usr - b.size, MAX_SLOP), MAGIC_SLOP)
  {
    hide IsFilled;
  }

  lemma OverrunInv(s: State, m': Mem, h: Ptr)
    requires Inv(s) && Overruns(s, m', h)
    ensures Inv(s.(mem := m')) && Evolves(s, s.(mem := m'), h)
  {
    hide Inv, Evolves;
    var b := s.blk[h];
    BlockFacts(s, h);
    Pow2Pages(b.bin);
    InvGood(s);
    OverrunSound(s.mem, m', s.noAccess, s.hdrSize, h, b);
    assert s.blk[h := b] == s.blk;
    RewriteInv(s, m', h, b);
    RewriteEvolves(s, m', h, b);
  }

  lemma OverrunSound(m: Mem, m': Mem, noAccess: set<Ptr>, hdrSize: nat, h: Ptr, b: Block)
    requires hdrSize >= ELM_HDR_BYTES && SoundAt(m, noAccess, hdrSize, h, b) && b.own.Used?
    requires b.usr + b.size <= h + Pow2(b.bin)
    requires AgreeOutside(m, m', b.usr + b.size, h + Pow2(b.bin) - b.usr - b.size)
    ensures SoundAt(m', noAccess, hdrSize, h, b) && AgreeOutside(m, m', h, Pow2(b.bin)) && HasHdr(m, h) && m'[h] == m[h]
  {
  }

  lemma OverrunClient(s: State, t: State, h: Ptr)
    requires Inv(s) && Inv(t) && Good(s) && Good(t) && Evolves(s, t, h) && Overruns(s, t.mem, h) && t == s.(mem := t.mem)
    ensures Client(t) == Client(s)
  {
    hide Inv, Sound, Apart, Client, Evolves;
    StoreClient(s, t, h);
    BystanderContents(s, s.blk[h].usr, h);
    SameBytes(s.mem, t.mem, s.blk[h].usr, s.blk[h].size);
    var p := s.blk[h].usr;
    assert Client(s)[p := Client(s)[p]] == Client(s);
  }

  lemma SameBytes(m: Mem, m': Mem, a: Ptr, n: nat)
    requires Mapped(m, a, n) && Mapped(m', a, n) && forall x | a <= x < a + n :: m'[x] == m[x]
    ensures Cells(m', a, n) == Cells(m, a, n)
  {
  }

  /** Memory after a stray write of one byte. */
  function Stray(s: State, a: Ptr, v: nat): State {
    s.(mem := s.mem[a := Byte(v)])
  }

  lemma StrayInv(s: State, p: Ptr, h: Ptr, a: Ptr, v: nat)
    requires Inv(s) && LiveAt(s, p, h) && p + s.blk[h].size <= a < h + Pow2(s.blk[h].bin)
    ensures a in s.mem && Overruns(s, s.mem[a := Byte(v)], h) && Inv(Stray(s, a, v))
  {
    hide Inv;
    BlockFacts(s, h);
    assert s.mem[a := Byte(v)].Keys == s.mem.Keys;
    OverrunInv(s, s.mem[a := Byte(v)], h);
  }

  /** One stray byte: free notices it exactly if it is among the first 32 behind the data and not the slop value. */
  lemma StrayVerdict(s: State, p: Ptr, h: Ptr, a: Ptr, v: nat)
    requires Inv(s) && LiveAt(s, p, h) && SlopAt(s.mem, h, s.blk[h])
    requires p + s.blk[h].size <= a < h + Pow2(s.blk[h].bin)
    ensures Inv(Stray(s, a, v))
    ensures FreeVerdict(Stray(s, a, v), h) ==
      if a < p + s.blk[h].size + 32 && v != MAGIC_SLOP then Aborts else Frees
  {
    hide Inv, Client, Good;
    var m' := s.mem[a := Byte(v)];
    StrayInv(s, p, h, a, v);
    OverrunVerdict(s, m', h);
    assert m'[a] == Byte(v);
  }

  /** For an alignment of at most 32 every overrun that reaches less than a page past the data is caught: it
      faults on the guard page, or all it changes is the gap, and then the next free aborts exactly if any
      byte of the gap is no longer slop. */
  lemma OverrunCaught(s: State, t: State, p: Ptr, h: Ptr, alignment: nat, size: nat, m': Mem)
    requires Inv(t) && Allocated(s, t, h, p, alignment, size) && alignment <= 32 && Overruns(t, m', h)
    ensures forall a | p + size <= a < p + size + PAGE_SIZE :: a in t.noAccess <==> h + Pow2(t.blk[h].bin) <= a
    ensures var u := t.(mem := m');
      && Inv(u) && Good(t) && Good(u) && Client(u) == Client(t)
      && (FreeVerdict(u, h).Aborts? <==> exists a :: p + size <= a < h + Pow2(t.blk[h].bin) && a in m' && m'[a] != Byte(MAGIC_SLOP))
  {
    hide Inv, Evolves, Client, SlopOk, L.Servable, L.BinFor, L.AllocSize, Good;
    BlockFacts(t, h);
    OverrunVerdict(t, m', h);
  }
}
