// Each elementary allocator step, seen from the blocks it is not about.
module Moves {
  import opened Bits
  import opened Memory
  import opened Lists
  import opened Heap
  import opened Steps
  import opened Evolve

  ghost predicate HeapGood(s: State) {
    Inv(s) && s.noAccess <= s.mem.Keys && (s.lo == s.hi || 0 < s.lo)
  }

  /** Block g is the same after the step, and as accessible as before. */
  ghost predicate SameBlock(s: State, t: State, g: Ptr) {
    && g in s.blk && g in t.blk && t.blk[g] == s.blk[g]
    && (Reachable(s.noAccess, g, Pow2(s.blk[g].bin)) ==> Reachable(t.noAccess, g, Pow2(s.blk[g].bin)))
  }

  /** The step keeps the heap consistent and concerns no block but x. */
  ghost predicate About(s: State, t: State, x: Ptr) {
    && HeapGood(t) && Evolves(s, t, x) && t.lists.Keys == s.lists.Keys
    && (forall g | g in s.blk && g != x :: SameBlock(s, t, g))
    && forall g | g in t.blk && g != x :: g in s.blk
  }

  lemma AboutNothing(s: State, x: Ptr)
    requires HeapGood(s)
    ensures About(s, s, x)
  {
    hide Inv;
  }

  lemma AboutTrans(s: State, t: State, u: State, x: Ptr)
    requires HeapGood(s) && About(s, t, x) && About(t, u, x)
    ensures About(s, u, x)
  {
    hide Inv, Evolves, Reachable;
    EvolvesTrans(s, t, u, x);
    forall g | g in s.blk && g != x ensures SameBlock(s, u, g) {
      assert SameBlock(s, t, g) && SameBlock(t, u, g);
    }
  }

  /** Only block x and the list l change. */
  lemma AboutRelist(s: State, t: State, x: Ptr, l: ListId)
    requires HeapGood(s) && Inv(t) && Evolves(s, t, x)
    requires x in s.blk && x in t.blk && t.blk == s.blk[x := t.blk[x]] && l in s.lists && l in t.lists
    requires t.lists == s.lists[l := t.lists[l]]
    requires t.noAccess == s.noAccess && t.lo == s.lo && t.hi == s.hi
    ensures About(s, t, x)
  {
    hide Inv, Evolves;
    assert s.mem.Keys <= t.mem.Keys by { EvolvesKeys(s, t, x); }
  }

  lemma EvolvesKeys(s: State, t: State, x: Ptr)
    requires Evolves(s, t, x)
    ensures s.mem.Keys <= t.mem.Keys
  {
  }

  lemma AboutAttach(s: State, l: ListId, h: Ptr, own: Owner)
    requires HeapGood(s) && l in s.lists && !l.DelayRing? && h in s.blk && s.blk[h].own.Loose?
    requires own.Avail? || own.Taken?
    requires Home(s.blk[h].(own := own)) == l && Reachable(s.noAccess, h, Pow2(s.blk[h].bin))
    ensures About(s, Attach(s, l, h, own), h)
  {
    hide Inv, Evolves, LinkFront, Reachable;
    AttachInv(s, l, h, own);
    AttachEvolves(s, l, h, own, h);
    AboutRelist(s, Attach(s, l, h, own), h, l);
  }

  lemma ListedReach(s: State, l: ListId, h: Ptr)
    requires Inv(s) && l in s.lists && !l.DelayRing? && h in s.blk && Home(s.blk[h]) == l
    ensures Reachable(s.noAccess, h, Pow2(s.blk[h].bin))
  {
    hide Reachable;
    BlockFacts(s, h);
    InvGood(s);
  }

  lemma AboutDetach(s: State, l: ListId, k: nat, h: Ptr)
    requires HeapGood(s) && l in s.lists && !l.DelayRing? && k < |s.lists[l]| && s.lists[l][k] == h
    requires h in s.blk ==> !s.blk[h].own.Used?
    ensures h in s.blk && Home(s.blk[h]) == l && About(s, Detach(s, l, k, h), h)
    ensures Reachable(s.noAccess, h, Pow2(s.blk[h].bin))
  {
    hide Inv, Evolves, Unlink, Reachable;
    DetachInv(s, l, k, h);
    ListedReach(s, l, h);
    DetachEvolves(s, l, k, h);
    AboutRelist(s, Detach(s, l, k, h), h, l);
  }

  lemma AboutResize(s: State, h: Ptr, size: nat)
    requires HeapGood(s) && h in s.blk && s.blk[h].own.Taken?
    ensures About(s, s.(blk := s.blk[h := s.blk[h].(size := size)]), h)
  {
    hide Inv, Evolves;
    ResizeInv(s, h, size);
    InvGood(s);
    RewriteEvolves(s, s.mem, h, s.blk[h].(size := size));
  }

  lemma AboutQuarantine(s: State, l: ListId, h: Ptr)
    requires HeapGood(s) && l in s.lists && h in s.blk && s.blk[h].own.Loose? && l == DelayRing(s.blk[h].slot)
    ensures About(s, Quarantine(s, l, h, s.blk[h].bin), h)
  {
    hide Inv, Evolves, SoundAt;
    var bin := s.blk[h].bin;
    var t := Quarantine(s, l, h, bin);
    QuarantineInv(s, l, h, bin);
    ProtectEvolves(s, t.noAccess, t.lists, h, Delayed, h);
    BlockMapped(s, h);
    forall g | g in s.blk && g != h ensures SameBlock(s, t, g) {
      InvGood(s);
    }
  }

  lemma BlockMapped(s: State, h: Ptr)
    requires Inv(s) && h in s.blk
    ensures Range(h, Pow2(s.blk[h].bin)) <= s.mem.Keys
  {
    BlockFacts(s, h);
  }

  lemma AboutUnquarantine(s: State, l: ListId, g: Ptr)
    requires HeapGood(s) && l in s.lists && l.DelayRing? && s.lists[l] != [] && g == s.lists[l][0]
    ensures g in s.blk && s.blk[g].own.Delayed? && s.blk[g].slot == l.slot
    ensures var t := Unquarantine(s, l, g, s.blk[g].bin);
      About(s, t, g) && Reachable(t.noAccess, g, Pow2(s.blk[g].bin))
  {
    hide Inv, Evolves, SoundAt;
    ListFacts(s, l);
    assert g in s.lists[l];
    var t := Unquarantine(s, l, g, s.blk[g].bin);
    UnquarantineInv(s, l, g, s.blk[g].bin);
    ProtectEvolves(s, t.noAccess, t.lists, g, Loose, g);
  }

  // ---------------------------------------------------------------- carving

  lemma AboutGrow(s: State, start: Ptr, size: nat, x: Ptr)
    requires HeapGood(s) && size > 0 && 0 < start && start % PAGE_SIZE == 0 && size % PAGE_SIZE == 0
    requires forall a | start <= a < start + size :: a !in s.mem
    ensures About(s, Grow(s, start, size), x)
  {
    hide Inv, Evolves, Reachable;
    GrowInv(s, start, size);
    GrowEvolves(s, start, size, x);
  }

  /** `getFromPool` and the header stores of `replenishBin`, when the pool has room. */
  function CarveFrom(s: State, slot: nat, bin: nat): State {
    Adopt(Cut(s, Pow2(bin)), s.lo, slot, bin)
  }

  lemma AboutCarve(s: State, slot: nat, bin: nat)
    requires HeapGood(s) && MIN_BIN <= bin < MAX_ALLOC_POWER && Pow2(bin) + PAGE_SIZE <= s.hi - s.lo
    ensures var t := CarveFrom(s, slot, bin);
      && s.lo !in s.blk && About(s, t, s.lo)
      && s.lo in t.blk && t.blk[s.lo] == Block(slot, bin, Loose, NULL, 0)
      && Reachable(t.noAccess, s.lo, Pow2(bin))
  {
    hide Inv, Evolves, RawExtent, OverlayHdr, PutWord, Reachable, Mapped;
    Pow2Pages(bin);
    var h := s.lo;
    var u := Cut(s, Pow2(bin));
    CutFacts(s, Pow2(bin));
    CutInv(s, Pow2(bin));
    CutEvolves(s, Pow2(bin), h);
    AdoptInv(u, h, slot, bin);
    AdoptEvolves(u, h, slot, bin, h);
    var t := CarveFrom(s, slot, bin);
    EvolvesTrans(s, u, t, h);
    EvolvesKeys(s, u, h);
    EvolvesKeys(u, t, h);
    CutReach(s, Pow2(bin));
    RestMapped(s, Pow2(bin));
  }

  lemma RestMapped(s: State, size: nat)
    requires Inv(s) && size > 0 && size % PAGE_SIZE == 0 && size + PAGE_SIZE <= s.hi - s.lo
    ensures Range(s.lo + size, PAGE_SIZE) <= s.mem.Keys
  {
    hide Inv;
    CutFacts(s, size);
  }

  lemma CutReach(s: State, size: nat)
    requires Inv(s) && size + PAGE_SIZE <= s.hi - s.lo
    ensures forall g | g in s.blk :: SameBlock(s, Cut(s, size), g)
  {
    ZoneFacts(s);
    forall g | g in s.blk ensures SameBlock(s, Cut(s, size), g) {
      assert g + Span(s.blk[g]) <= s.lo || s.hi <= g;
    }
  }

  // ---------------------------------------------------------------- user data

  /** A step that rewrites block h in place. */
  lemma AboutRewrite(s: State, t: State, h: Ptr)
    requires HeapGood(s) && Inv(t) && Evolves(s, t, h)
    requires h in s.blk && h in t.blk && t == s.(mem := t.mem, blk := s.blk[h := t.blk[h]])
    ensures About(s, t, h)
  {
    hide Inv, Evolves;
    EvolvesKeys(s, t, h);
  }
}
