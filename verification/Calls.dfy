// What one allocation call does, as a relation between heap states.
module Calls {
  import opened Bits
  import opened Memory
  import opened Heap
  import opened Steps
  import opened Evolve
  import opened UserData
  import L = Layout

  /** No block other than h is between two owners. */
  ghost predicate Settled(blk: map<Ptr, Block>, h: Ptr) {
    forall x | x in blk && x != h :: blk[x].own.Avail? || blk[x].own.Used? || blk[x].own.Delayed?
  }

  /** hdr, which was free or did not exist, has been handed out for usrSize bytes. */
  ghost predicate Granted(s: State, t: State, hdr: Ptr, i: nat, b: nat, usrSize: nat) {
    && Evolves(s, t, hdr) && Settled(t.blk, hdr)
    && (hdr in s.blk ==> s.blk[hdr].own.Avail?)
    && hdr in t.blk && t.blk[hdr].own.Taken?
    && t.blk[hdr].slot == i && t.blk[hdr].bin == b && t.blk[hdr].size == usrSize
  }

  /** The call did nothing a client can see. */
  ghost predicate Quiet(s: State, t: State) {
    && Good(s) && Good(t) && Evolves(s, t, NULL)
    && Client(t) == Client(s) && (SlopOk(s) ==> SlopOk(t))
  }

  /** The call made p, in block h, a live pointer to `size` bytes; the client's view is otherwise the same. */
  ghost predicate Allocated(s: State, t: State, h: Ptr, p: Ptr, alignment: nat, size: nat) {
    && Good(s) && Good(t) && Evolves(s, t, h)
    && (h in s.blk ==> s.blk[h].own.Avail?)
    && LiveAt(t, p, h) && t.blk[h].size == size
    && p != NULL && p !in Client(s) && Mapped(t.mem, p, size)
    && Client(t) == Client(s)[p := Cells(t.mem, p, size)]
    && Placement(s.hdrSize, h, t.blk[h].bin, p, alignment, size)
    && SlopAt(t.mem, h, t.blk[h]) && (SlopOk(s) ==> SlopOk(t))
  }

  /** p is aligned, as close to the guard page as that allows, in the smallest block that fits. */
  ghost predicate Placement(hdrSize: nat, h: Ptr, bin: nat, p: Ptr, alignment: nat, size: nat) {
    && L.Servable(L.AllocSize(hdrSize, alignment, size))
    && bin == L.BinFor(L.AllocSize(hdrSize, alignment, size)) && L.SmallestBin(hdrSize, bin, alignment, size)
    && (alignment > 1 ==> p % alignment == 0)
    && p + size <= h + Pow2(bin) < p + size + Max(alignment, 1)
  }

  lemma QuietNow(s: State, t: State)
    requires Inv(s) && Inv(t) && Evolves(s, t, NULL)
    ensures Quiet(s, t)
  {
    hide Sound, Apart, Owned, Evolves, Client, SlopOk;
    InvGood(s);
    InvGood(t);
    ZoneFacts(s);
    ZoneFacts(t);
    ClientSame(s, t, NULL);
    if SlopOk(s) {
      SlopKept(s, t, NULL);
    }
  }

  /** A granted block, once furnished, is an allocation. */
  lemma AllocatedNow(s: State, u: State, t: State, h: Ptr, p: Ptr, alignment: nat, size: nat, i: nat, mis: nat)
    requires Inv(s) && Inv(u) && L.Servable(L.AllocSize(s.hdrSize, alignment, size))
    requires Granted(s, u, h, i, L.BinFor(L.AllocSize(s.hdrSize, alignment, size)), size)
    requires Furnished(u.mem, t.mem, h, u.blk[h].bin, p, size, mis)
    requires h + s.hdrSize + WORD_SIZE <= p && (alignment > 1 ==> p % alignment == 0) && mis < Max(alignment, 1)
    requires t == u.(mem := t.mem, blk := u.blk[h := u.blk[h].(own := Used, usr := p)])
    ensures Inv(t) && Settled(t.blk, NULL) && Allocated(s, t, h, p, alignment, size)
  {
    hide Sound, Apart, Owned, Inv, Client, SlopOk, Rewritten, L.Servable, L.BinFor, L.SmallestBin;
    assert u.hdrSize == s.hdrSize;
    L.BinSmallest(s.hdrSize, alignment, size);
    CommitInv(u, t.mem, h, p, mis);
    EvolvesTrans(s, u, t, h);
    InvGood(s);
    InvGood(t);
    assert SlopAt(t.mem, h, t.blk[h]);
    ClientGains(s, t, h);
    if SlopOk(s) {
      SlopKept(s, t, h);
    }
  }

  // ---------------------------------------------------------------- free

  /** The call gave block h back: exactly its pointer leaves the client's view. */
  ghost predicate Freed(s: State, t: State, h: Ptr, own: Owner) {
    && Good(s) && Good(t) && Evolves(s, t, h)
    && h in s.blk && s.blk[h].own.Used? && h in t.blk && t.blk[h] == s.blk[h].(own := own)
    && s.blk[h].usr in Client(s) && Client(t) == Client(s) - {s.blk[h].usr}
    && (SlopOk(s) ==> SlopOk(t))
  }

  lemma FreedNow(s: State, t: State, h: Ptr, own: Owner)
    requires Inv(s) && Inv(t) && Evolves(s, t, h) && !own.Used?
    requires h in s.blk && s.blk[h].own.Used? && h in t.blk && t.blk[h] == s.blk[h].(own := own)
    ensures Freed(s, t, h, own)
  {
    hide Inv, Sound, Apart, Owned, Client, SlopOk, Evolves;
    InvGood(s);
    InvGood(t);
    ClientLoses(s, t, h);
    if SlopOk(s) {
      SlopKept(s, t, h);
    }
  }

  /** p is the pointer last handed out from block h, whether or not it is still live. */
  ghost predicate Issued(s: State, p: Ptr, h: Ptr) {
    p != NULL && h in s.blk && s.blk[h].usr == p
  }

  /** What `free` does with a pointer issued from block h: a block in quarantine faults, a block on a free
      list fails the magic check, and a live block is freed exactly if its slop is intact. */
  datatype Verdict = Frees | Faults | Aborts

  ghost function FreeVerdict(s: State, h: Ptr): Verdict
    requires h in s.blk
  {
    match s.blk[h].own
    case Delayed => Faults
    case Used => if SlopAt(s.mem, h, s.blk[h]) then Frees else Aborts
    case _ => Aborts
  }

  /** What `free` finds behind an issued pointer. */
  lemma IssuedFacts(s: State, p: Ptr, h: Ptr)
    requires Inv(s) && Issued(s, p, h) && Settled(s.blk, NULL)
    ensures p >= WORD_SIZE && IsWord(s.mem, p - WORD_SIZE, h)
    ensures s.blk[h].own.Delayed? ==> p - WORD_SIZE in s.noAccess
    ensures !s.blk[h].own.Delayed? ==> Reachable(s.noAccess, p - WORD_SIZE, WORD_SIZE)
    ensures !s.blk[h].own.Delayed? ==> IsHdr(s.mem, h) && Reachable(s.noAccess, h, ELM_HDR_BYTES)
    ensures s.mem[h].hdr.magic == Magic(s.blk[h].own)
  {
    ZoneFacts(s);
    BlockFacts(s, h);
    Pow2Pages(s.blk[h].bin);
  }

  /** What `free` finds in the header and behind the data of a live allocation. */
  lemma LiveFacts(s: State, h: Ptr)
    requires Inv(s) && h in s.blk && s.blk[h].own.Used?
    ensures var b := s.blk[h]; var e := h + Pow2(b.bin);
      && s.mem[h].hdr.usrData == b.usr && s.mem[h].hdr.usrDataSize == b.size
      && b.usr + b.size <= e && s.mem[h].hdr.misalignment == e - b.usr - b.size
      && Mapped(s.mem, b.usr, e - b.usr) && Reachable(s.noAccess, b.usr, e - b.usr)
  {
    BlockFacts(s, h);
  }

  /** A pointer determines the block it was issued from. */
  lemma IssuedOnce(s: State, p: Ptr, h: Ptr, k: Ptr)
    requires Inv(s) && Issued(s, p, h) && Issued(s, p, k)
    ensures h == k
  {
    InvGood(s);
    UsrInjective(s, h, k);
  }

  // ---------------------------------------------------------------- writes by the client

  /** The call replaced the bytes of live pointer p, in block h, and nothing else. */
  ghost predicate Stored(s: State, t: State, h: Ptr, p: Ptr, cs: seq<Cell>) {
    && Good(s) && Good(t) && Evolves(s, t, h)
    && LiveAt(s, p, h) && t.blk == s.blk && |cs| == s.blk[h].size
    && p in Client(s) && Client(t) == Client(s)[p := cs]
    && (SlopOk(s) ==> SlopOk(t))
  }

  lemma SlopAtOf(s: State, h: Ptr)
    requires SlopOk(s) && h in s.blk && s.blk[h].own.Used?
    ensures SlopAt(s.mem, h, s.blk[h])
  {
  }

  lemma StoreSound(m: Mem, m': Mem, noAccess: set<Ptr>, hdrSize: nat, h: Ptr, b: Block)
    requires hdrSize >= ELM_HDR_BYTES && SoundAt(m, noAccess, hdrSize, h, b) && b.own.Used?
    requires AgreeOutside(m, m', b.usr, b.size)
    ensures SoundAt(m', noAccess, hdrSize, h, b)
  {
  }

  lemma StoreAgrees(m: Mem, m': Mem, noAccess: set<Ptr>, hdrSize: nat, h: Ptr, b: Block)
    requires hdrSize >= ELM_HDR_BYTES && SoundAt(m, noAccess, hdrSize, h, b) && b.own.Used?
    requires AgreeOutside(m, m', b.usr, b.size)
    ensures AgreeOutside(m, m', h, Pow2(b.bin)) && Mapped(m', b.usr, b.size)
    ensures HasHdr(m, h) && HasHdr(m', h) && m'[h] == m[h]
    ensures SlopAt(m, h, b) ==> SlopAt(m', h, b)
  {
  }

  lemma StoreClient(s: State, t: State, h: Ptr)
    requires Good(s) && Good(t) && Evolves(s, t, h) && t.blk == s.blk
    requires h in s.blk && s.blk[h].own.Used?
    ensures s.blk[h].usr in Client(s) && Mapped(t.mem, s.blk[h].usr, s.blk[h].size)
    ensures Client(t) == Client(s)[s.blk[h].usr := Cells(t.mem, s.blk[h].usr, s.blk[h].size)]
  {
    hide Client, Sound, Apart, Evolves;
    var p := s.blk[h].usr;
    EvolvesClient(s, t, h);
    ClientAt(s, p, h);
    ClientAt(t, p, h);
    MapStore(Client(s), Client(t), p);
  }

  lemma MapStore<K, V>(c: map<K, V>, d: map<K, V>, p: K)
    requires d - {p} == c - {p} && p in d && p in c
    ensures d == c[p := d[p]]
  {
    forall k | k in d && k != p ensures k in c && c[k] == d[k] {
      assert k in d - {p} && k in c - {p} && (d - {p})[k] == d[k] && (c - {p})[k] == c[k];
    }
    forall k | k in c && k != p ensures k in d {
      assert k in c - {p};
    }
  }

  /** Writing inside a live allocation. */
  lemma StoreInv(s: State, m': Mem, h: Ptr)
    requires Inv(s) && h in s.blk && s.blk[h].own.Used?
    requires AgreeOutside(s.mem, m', s.blk[h].usr, s.blk[h].size)
    ensures Mapped(m', s.blk[h].usr, s.blk[h].size) && Inv(s.(mem := m'))
    ensures Stored(s, s.(mem := m'), h, s.blk[h].usr, Cells(m', s.blk[h].usr, s.blk[h].size))
  {
    hide Owned, Client, Evolves, SlopOk;
    var t := s.(mem := m');
    var b := s.blk[h];
    InvGood(s);
    StoreSound(s.mem, m', s.noAccess, s.hdrSize, h, b) by { BlockFacts(s, h); }
    StoreAgrees(s.mem, m', s.noAccess, s.hdrSize, h, b) by { BlockFacts(s, h); }
    RewriteInv(s, m', h, b);
    assert s.blk[h := b] == s.blk;
    InvGood(t);
    RewriteEvolves(s, m', h, b);
    StoreClient(s, t, h);
    if SlopOk(s) {
      SlopAtOf(s, h);
      SlopKept(s, t, h);
    }
  }

  /** The call made p, in block h, a live pointer to the bytes cs; the client's view is otherwise the same. */
  ghost predicate Gained(s: State, t: State, h: Ptr, p: Ptr, cs: seq<Cell>) {
    && Good(s) && Good(t) && Evolves(s, t, h)
    && (h in s.blk ==> s.blk[h].own.Avail?)
    && LiveAt(t, p, h) && t.blk[h].size == |cs|
    && p != NULL && p !in Client(s) && Client(t) == Client(s)[p := cs]
    && (SlopOk(s) ==> SlopOk(t))
  }

  lemma AllocatedGains(s: State, t: State, h: Ptr, p: Ptr, alignment: nat, size: nat)
    requires Allocated(s, t, h, p, alignment, size)
    ensures Mapped(t.mem, p, size) && Gained(s, t, h, p, Cells(t.mem, p, size))
  {
    hide Good, Evolves, Client, SlopOk;
  }

  lemma AllocatedPlaced(s: State, t: State, h: Ptr, p: Ptr, alignment: nat, size: nat)
    requires Allocated(s, t, h, p, alignment, size)
    ensures h in t.blk && Placement(s.hdrSize, h, t.blk[h].bin, p, alignment, size) && p % Max(alignment, 1) == 0
  {
    hide Good, Evolves, Client, SlopOk, SlopAt, L.Servable, L.BinFor, L.SmallestBin;
  }

  /** What alignment 8 or 16, picked from the size, means for a pointer. */
  lemma MallocPlaced(s: State, t: State, h: Ptr, p: Ptr, size: nat)
    requires Allocated(s, t, h, p, L.MallocAlignment(size), size)
    ensures h in t.blk && p % 8 == 0 && (size > 8 ==> p % 16 == 0)
    ensures p + size <= h + Pow2(t.blk[h].bin) < p + size + (if size > 8 then 16 else 8)
    ensures L.SmallestBin(s.hdrSize, t.blk[h].bin, if size > 8 then 16 else 8, size)
  {
    hide Pow2, L.Servable, L.BinFor, L.SmallestBin, L.AllocSize, Good, Evolves, Client, SlopOk, SlopAt, Mapped, Cells;
    assert size > 8 ==> p % 16 == 0;
  }

  lemma GainedStored(s: State, t: State, u: State, h: Ptr, p: Ptr, cs: seq<Cell>, cs': seq<Cell>)
    requires Inv(s) && Gained(s, t, h, p, cs) && Stored(t, u, h, p, cs')
    ensures Gained(s, u, h, p, cs')
  {
    hide Inv, Sound, Apart, Evolves, Client, SlopOk;
    EvolvesTrans(s, t, u, h);
  }

  /** A live allocation other than the block a call is about is still there afterwards, unchanged. */
  lemma BystanderLives(s: State, t: State, g: Ptr, h: Ptr, p: Ptr)
    requires Inv(s) && Inv(t) && Evolves(s, t, g) && LiveAt(s, p, h) && h != g
    ensures LiveAt(t, p, h) && t.blk[h] == s.blk[h] && p in Client(s) && p in Client(t) && Client(t)[p] == Client(s)[p]
    ensures SlopAt(t.mem, h, t.blk[h]) <==> SlopAt(s.mem, h, s.blk[h])
  {
    hide Inv, Sound, Apart, Owned, Client, SlopAt;
    InvGood(s);
    InvGood(t);
    BystanderSlop(s, t, g, h);
    LiveBoth(s, t, g, h, p);
  }

  lemma BystanderSlop(s: State, t: State, g: Ptr, h: Ptr)
    requires Inv(s) && Evolves(s, t, g) && h in s.blk && s.blk[h].own.Used? && h != g
    ensures h in t.blk && t.blk[h] == s.blk[h]
    ensures SlopAt(t.mem, h, t.blk[h]) <==> SlopAt(s.mem, h, s.blk[h])
  {
    hide Inv, Sound, Apart;
    InvGood(s);
    assert KeptAt(s.mem, t.mem, h, s.blk[h], t.blk[h]);
    BlockFacts(s, h);
  }

  lemma LiveBoth(s: State, t: State, g: Ptr, h: Ptr, p: Ptr)
    requires Good(s) && Good(t) && Evolves(s, t, g) && LiveAt(s, p, h) && LiveAt(t, p, h) && h != g
    ensures p in Client(s) && p in Client(t) && Client(t)[p] == Client(s)[p]
  {
    hide Client, Sound, Apart, Evolves;
    ClientAt(s, p, h);
    ClientAt(t, p, h);
    NotOwn(s, g, h, p);
    ClientKept(s, t, g, p);
  }

  lemma NotOwn(s: State, g: Ptr, h: Ptr, p: Ptr)
    requires Good(s) && LiveAt(s, p, h) && h != g
    ensures p !in Own(s.blk, g)
  {
    hide Sound, Apart;
    LiveUnique(s, p, h);
    if p in Own(s.blk, g) {
      LiveUnique(s, p, g);
    }
  }

  /** Two live allocations are in different blocks, so their bytes do not overlap. */
  lemma LiveApart(s: State, g: Ptr, h: Ptr)
    requires Inv(s) && g in s.blk && h in s.blk && g != h && s.blk[g].own.Used? && s.blk[h].own.Used?
    ensures var a, b := s.blk[g], s.blk[h]; a.usr + a.size <= b.usr || b.usr + b.size <= a.usr
  {
    BlockFacts(s, g);
    BlockFacts(s, h);
  }

  // ---------------------------------------------------------------- realloc

  /** cs starts with the first k bytes behind p. */
  ghost predicate Copied(s: State, p: Ptr, k: nat, cs: seq<Cell>) {
    && Good(s) && p in Client(s) && k <= |cs| && k <= |Client(s)[p]| && cs[..k] == Client(s)[p][..k]
    && (k == |cs| || k == |Client(s)[p]|)
  }

  /** The call gave p, in block h, back and made q, in block g, live with the bytes cs; they start with
      the k bytes that cs and the old allocation both have place for.  Everything else the client sees is unchanged. */
  ghost predicate Moved(s: State, t: State, h: Ptr, p: Ptr, q: Ptr, cs: seq<Cell>, k: nat) {
    && Good(s) && Good(t) && p in Client(s) && q != NULL && q !in Client(s)
    && Client(t) == (Client(s) - {p})[q := cs]
    && k <= |cs| && k <= |Client(s)[p]| && cs[..k] == Client(s)[p][..k] && (k == |cs| || k == |Client(s)[p]|)
    && (SlopOk(s) ==> SlopOk(t))
    && h in t.blk && !t.blk[h].own.Used?
  }

  lemma MovedNow(s: State, t: State, u: State, g: Ptr, q: Ptr, cs: seq<Cell>, h: Ptr, p: Ptr, own: Owner, k: nat)
    requires Gained(s, t, g, q, cs) && Freed(t, u, h, own) && !own.Used? && p in Client(s) && t.blk[h].usr == p
    requires k <= |cs| && k <= |Client(s)[p]| && cs[..k] == Client(s)[p][..k] && (k == |cs| || k == |Client(s)[p]|)
    ensures Moved(s, u, h, p, q, cs, k)
  {
    hide Sound, Apart, Client, Evolves, SlopOk;
    SwapMap(Client(s), Client(t), Client(u), p, q, cs);
  }

  lemma SwapMap<K, V>(c: map<K, V>, d: map<K, V>, e: map<K, V>, p: K, q: K, v: V)
    requires p in c && q !in c && d == c[q := v] && e == d - {p}
    ensures e == (c - {p})[q := v]
  {
  }

  lemma FreedKeeps(s: State, t: State, h: Ptr, own: Owner, g: Ptr)
    requires Freed(s, t, h, own) && g in s.blk && s.blk[g].own.Used? && g != h
    ensures g in t.blk && t.blk[g] == s.blk[g]
  {
    assert KeptAt(s.mem, t.mem, g, s.blk[g], t.blk[g]);
  }

  lemma StoredEvolves(s: State, t: State, h: Ptr, p: Ptr, cs: seq<Cell>)
    requires Stored(s, t, h, p, cs)
    ensures Evolves(s, t, h) && t.blk == s.blk
  {
  }

  /** The client's view of a live pointer is the cells behind it. */
  lemma BystanderContents(s: State, p: Ptr, h: Ptr)
    requires Inv(s) && LiveAt(s, p, h)
    ensures p != NULL && p in Client(s) && Mapped(s.mem, p, s.blk[h].size) && Client(s)[p] == Cells(s.mem, p, s.blk[h].size)
  {
    hide Inv, Sound, Apart, Client;
    InvGood(s);
    ClientAt(s, p, h);
  }

  lemma CopyStores(m: Mem, dst: Ptr, src: Ptr, n: nat, size: nat)
    requires Mapped(m, src, n) && Mapped(m, dst, size) && n <= size
    ensures AgreeOutside(m, Copy(m, dst, src, n), dst, size)
    ensures Mapped(Copy(m, dst, src, n), dst, size)
    ensures Cells(Copy(m, dst, src, n), dst, size)[..n] == Cells(m, src, n)
  {
    var m' := Copy(m, dst, src, n);
    assert m'.Keys == m.Keys;
    forall i | 0 <= i < n ensures Cells(m', dst, size)[i] == Cells(m, src, n)[i] {
      assert dst + i in Range(dst, n);
    }
  }

  lemma FillStores(m: Mem, a: Ptr, n: nat, v: nat)
    requires Mapped(m, a, n)
    ensures AgreeOutside(m, Fill(m, a, n, v), a, n) && Mapped(Fill(m, a, n, v), a, n)
    ensures Cells(Fill(m, a, n, v), a, n) == seq(n, _ => Byte(v))
  {
    assert Fill(m, a, n, v).Keys == m.Keys;
    forall i | 0 <= i < n ensures Cells(Fill(m, a, n, v), a, n)[i] == Byte(v) {
      assert a + i in Range(a, n);
    }
  }

  lemma ByteStores(m: Mem, p: Ptr, size: nat, off: nat, v: nat)
    requires Mapped(m, p, size) && off < size
    ensures AgreeOutside(m, Fill(m, p + off, 1, v), p, size) && Mapped(Fill(m, p + off, 1, v), p, size)
    ensures Cells(Fill(m, p + off, 1, v), p, size) == Cells(m, p, size)[off := Byte(v)]
  {
    assert Fill(m, p + off, 1, v).Keys == m.Keys;
  }
}
