// Elementary allocator steps on heap states, each keeping the heap invariant.
module Steps {
  import opened Bits
  import opened Memory
  import opened Lists
  import opened Heap

  // ---------------------------------------------------------------- framing

  ghost predicate SameOn(m: Mem, m': Mem, a: Ptr, n: nat) {
    forall x | a <= x < a + n && x in m :: x in m' && m'[x] == m[x]
  }

  ghost predicate SameAccess(p: set<Ptr>, q: set<Ptr>, a: Ptr, n: nat) {
    forall x | a <= x < a + n :: x in p <==> x in q
  }

  /** A block whose whole span is untouched keeps everything said about it. */
  lemma BlockFrame(m: Mem, m': Mem, p: set<Ptr>, q: set<Ptr>, hdrSize: nat, h: Ptr, b: Block)
    requires hdrSize >= ELM_HDR_BYTES
    requires SoundAt(m, p, hdrSize, h, b)
    requires SameOn(m, m', h, Span(b)) && SameAccess(p, q, h, Span(b))
    ensures SoundAt(m', q, hdrSize, h, b)
  {
    Pow2Pages(b.bin);
  }

  /** Changing memory and protection only where block h's usable bytes are keeps the other blocks sound. */
  lemma OneBlockSound(s: State, m': Mem, q: set<Ptr>, h: Ptr, b: Block)
    requires s.hdrSize >= ELM_HDR_BYTES && Sound(s) && Apart(s.blk)
    requires h in s.blk && b.bin == s.blk[h].bin
    requires AgreeOutside(s.mem, m', h, Pow2(b.bin))
    requires forall x | !(h <= x < h + Pow2(b.bin)) :: x in s.noAccess <==> x in q
    requires SoundAt(m', q, s.hdrSize, h, b)
    ensures Sound(s.(mem := m', noAccess := q, blk := s.blk[h := b])) && Apart(s.blk[h := b])
  {
    forall x | x in s.blk && x != h ensures SoundAt(m', q, s.hdrSize, x, s.blk[x]) {
      assert x + Span(s.blk[x]) <= h || h + Pow2(b.bin) <= x;
      BlockFrame(s.mem, m', s.noAccess, q, s.hdrSize, x, s.blk[x]);
    }
  }

  lemma OneBlockZoned(s: State, m': Mem, q: set<Ptr>, h: Ptr, b: Block)
    requires Zoned(s)
    requires h in s.blk && b.bin == s.blk[h].bin
    requires AgreeOutside(s.mem, m', h, Pow2(b.bin))
    requires forall x | !(h <= x < h + Pow2(b.bin)) :: x in s.noAccess <==> x in q
    ensures Zoned(s.(mem := m', noAccess := q, blk := s.blk[h := b]))
  {
  }

  /** Relinking headers, and moving one block to an owner its protection allows, disturbs only the lists. */
  lemma LinksFrame(s: State, m': Mem, h: Ptr, own: Owner)
    requires Sound(s) && Apart(s.blk) && Zoned(s) && SameButLinks(s.mem, m')
    requires h in s.blk && !s.blk[h].own.Used? && !own.Used? && !own.Leaving? && !own.Delayed?
    requires own.Loose? || Reachable(s.noAccess, h, Pow2(s.blk[h].bin))
    ensures var t := s.(mem := m', blk := s.blk[h := s.blk[h].(own := own)]);
      Sound(t) && Apart(t.blk) && Zoned(t)
  {
    hide SoundAt, SameButLinks, Zoned, Reachable;
    var blk := s.blk[h := s.blk[h].(own := own)];
    forall x | x in blk ensures SoundAt(m', s.noAccess, s.hdrSize, x, blk[x]) {
      LinksFrameAt(s.mem, m', s.noAccess, s.hdrSize, x, s.blk[x], blk[x].own);
    }
    LinksFrameZoned(s, m', h, own);
  }

  lemma LinksFrameZoned(s: State, m': Mem, h: Ptr, own: Owner)
    requires Zoned(s) && SameButLinks(s.mem, m') && h in s.blk
    ensures Zoned(s.(mem := m', blk := s.blk[h := s.blk[h].(own := own)]))
  {
  }

  lemma LinksFrameAt(m: Mem, m': Mem, noAccess: set<Ptr>, hdrSize: nat, x: Ptr, b: Block, own: Owner)
    requires SoundAt(m, noAccess, hdrSize, x, b)
    requires SameButLinks(m, m')
    requires own == b.own || (!b.own.Used? && !own.Used? && !own.Leaving? && !own.Delayed?
                              && (own.Loose? || Reachable(noAccess, x, Pow2(b.bin))))
    ensures var b' := b.(own := own);
      SoundAt(m', noAccess, hdrSize, x, b')
  {
  }

  /** Changing one list and the links of its members, and of one block on no other list, keeps the rest threaded. */
  lemma ThreadedFrame(s: State, m': Mem, l: ListId, q: seq<Ptr>, h: Ptr)
    requires Owned(s) && Threaded(s) && l in s.lists
    requires Linked(m', q)
    requires h in s.blk && (s.blk[h].own.Loose? || Home(s.blk[h]) == l)
    requires forall x | x in s.mem && x != h && x !in s.lists[l] :: x in m' && m'[x] == s.mem[x]
    ensures Threaded(s.(mem := m', lists := s.lists[l := q]))
  {
    forall j | j in s.lists && !j.DelayRing? && j != l ensures Linked(m', s.lists[j]) {
      assert ListOf(s.blk, s.lists[j], j) && ListOf(s.blk, s.lists[l], l);
      LinkedFrame(s.mem, m', s.lists[j]);
    }
  }

  /** The common part of taking a block off a list and of putting one on. */
  lemma RelistInv(s: State, m': Mem, l: ListId, q: seq<Ptr>, h: Ptr, own: Owner)
    requires Inv(s) && SameButLinks(s.mem, m') && l in s.lists
    requires h in s.blk && (s.blk[h].own.Loose? || Home(s.blk[h]) == l)
    requires !s.blk[h].own.Used? && (own.Loose? || ((own.Avail? || own.Taken?) && Reachable(s.noAccess, h, Pow2(s.blk[h].bin))))
    requires Linked(m', q)
    requires forall x | x in s.mem && x != h && x !in s.lists[l] :: m'[x] == s.mem[x]
    requires Owned(s.(lists := s.lists[l := q], blk := s.blk[h := s.blk[h].(own := own)]))
    ensures Inv(s.(mem := m', lists := s.lists[l := q], blk := s.blk[h := s.blk[h].(own := own)]))
  {
    assert m'.Keys == s.mem.Keys;
    hide SoundAt, SameButLinks, Linked, ListOf, Reachable, IsFilled;
    LinksFrame(s, m', h, own);
    ThreadedFrame(s, m', l, q, h);
  }

  // ---------------------------------------------------------------- list steps

  function ListAt(lists: map<ListId, seq<Ptr>>, l: ListId): seq<Ptr> {
    if l in lists then lists[l] else []
  }

  function Minus(s: seq<Ptr>, k: nat): seq<Ptr> {
    if k < |s| then Without(s, k) else s
  }

  function Reown(blk: map<Ptr, Block>, h: Ptr, own: Owner): map<Ptr, Block> {
    if h in blk then blk[h := blk[h].(own := own)] else blk
  }

  /** `rmElm` of h, the k-th element of list l. */
  function Detach(s: State, l: ListId, k: nat, h: Ptr): State {
    s.(mem := Unlink(s.mem, h),
       lists := s.lists[l := Minus(ListAt(s.lists, l), k)],
       blk := Reown(s.blk, h, Loose))
  }

  lemma DetachInv(s: State, l: ListId, k: nat, h: Ptr)
    requires Inv(s) && l in s.lists && !l.DelayRing? && k < |s.lists[l]| && s.lists[l][k] == h
    requires h in s.blk ==> !s.blk[h].own.Used?
    ensures h in s.blk && Home(s.blk[h]) == l
    ensures Inv(Detach(s, l, k, h))
  {
    assert ListOf(s.blk, s.lists[l], l) && h in s.lists[l];
    UnlinkLinks(s.mem, s.lists[l], k);
    DetachOwned(s, l, k);
    RelistInv(s, Unlink(s.mem, h), l, Without(s.lists[l], k), h, Loose);
  }

  lemma DetachOwned(s: State, l: ListId, k: nat)
    requires Owned(s) && l in s.lists && k < |s.lists[l]|
    ensures s.lists[l][k] in s.blk
    ensures var h := s.lists[l][k];
      Owned(s.(lists := s.lists[l := Without(s.lists[l], k)], blk := s.blk[h := s.blk[h].(own := Loose)]))
  {
    var q := s.lists[l];
    var h := q[k];
    assert ListOf(s.blk, q, l) && h in q;
    var t := s.(lists := s.lists[l := Without(q, k)], blk := s.blk[h := s.blk[h].(own := Loose)]);
    forall j | j in t.lists ensures ListOf(t.blk, t.lists[j], j) {
      assert ListOf(s.blk, s.lists[j], j);
      if j == l {
        var w := Without(q, k);
        forall x ensures x in w <==> x in q && x != h {
          if x in q && x != h {
            var i :| 0 <= i < |q| && q[i] == x;
            assert w[if i < k then i else i - 1] == x;
          }
        }
      }
    }
  }

  /** `insertElmHead` of a loose block onto list l. */
  function Attach(s: State, l: ListId, h: Ptr, own: Owner): State {
    s.(mem := LinkFront(s.mem, First(ListAt(s.lists, l)), h),
       lists := s.lists[l := [h] + ListAt(s.lists, l)],
       blk := Reown(s.blk, h, own))
  }

  lemma AttachInv(s: State, l: ListId, h: Ptr, own: Owner)
    requires Inv(s) && l in s.lists && !l.DelayRing? && h in s.blk && s.blk[h].own.Loose?
    requires own.Avail? || own.Taken?
    requires Home(s.blk[h].(own := own)) == l
    requires Reachable(s.noAccess, h, Pow2(s.blk[h].bin))
    ensures Inv(Attach(s, l, h, own))
  {
    assert PlacedAt(s.mem, h, s.blk[h]);
    assert ListOf(s.blk, s.lists[l], l);
    LinkFrontLinks(s.mem, s.lists[l], h);
    AttachOwned(s, l, h, own);
    RelistInv(s, LinkFront(s.mem, First(s.lists[l]), h), l, [h] + s.lists[l], h, own);
  }

  lemma AttachOwned(s: State, l: ListId, h: Ptr, own: Owner)
    requires Owned(s) && l in s.lists && h in s.blk && s.blk[h].own.Loose?
    requires !own.Loose? && Home(s.blk[h].(own := own)) == l
    ensures Owned(s.(lists := s.lists[l := [h] + s.lists[l]], blk := s.blk[h := s.blk[h].(own := own)]))
    ensures Owned(s.(lists := s.lists[l := s.lists[l] + [h]], blk := s.blk[h := s.blk[h].(own := own)]))
  {
    var blk := s.blk[h := s.blk[h].(own := own)];
    assert ListOf(s.blk, s.lists[l], l);
    forall j | j in s.lists && j != l ensures ListOf(blk, s.lists[j], j) {
      assert ListOf(s.blk, s.lists[j], j);
    }
    assert ListOf(blk, [h] + s.lists[l], l);
    assert ListOf(blk, s.lists[l] + [h], l);
  }

  // ---------------------------------------------------------------- protection steps

  /** The end of `delayPut`: queue a loose block and take all access away from it. */
  function Quarantine(s: State, l: ListId, h: Ptr, bin: nat): State {
    s.(noAccess := s.noAccess + Range(h, Pow2(bin)),
       lists := s.lists[l := ListAt(s.lists, l) + [h]],
       blk := Reown(s.blk, h, Delayed))
  }

  lemma QuarantineInv(s: State, l: ListId, h: Ptr, bin: nat)
    requires Inv(s) && l in s.lists && h in s.blk && s.blk[h].own.Loose? && l == DelayRing(s.blk[h].slot)
    requires bin == s.blk[h].bin
    ensures Inv(Quarantine(s, l, h, bin))
  {
    var q := s.noAccess + Range(h, Pow2(s.blk[h].bin));
    var b := s.blk[h].(own := Delayed);
    ProtectAt(s.mem, s.noAccess, q, s.hdrSize, h, s.blk[h], b);
    OneBlockSound(s, s.mem, q, h, b);
    OneBlockZoned(s, s.mem, q, h, b);
    AttachOwned(s, l, h, Delayed);
    ThreadedRing(s, l, s.lists[l] + [h]);
  }

  /** Only the owner and the matching protection of a block change. */
  lemma ProtectAt(m: Mem, p: set<Ptr>, q: set<Ptr>, hdrSize: nat, h: Ptr, b: Block, b': Block)
    requires SoundAt(m, p, hdrSize, h, b) && b' == b.(own := b'.own)
    requires !b.own.Used? && !b'.own.Used? && !b'.own.Leaving?
    requires SameAccess(p, q, h + Pow2(b.bin), PAGE_SIZE)
    requires b'.own.Loose? || (if b'.own.Delayed? then Blocked(q, h, Pow2(b.bin)) else Reachable(q, h, Pow2(b.bin)))
    ensures SoundAt(m, q, hdrSize, h, b')
  {
  }

  /** `circGet` and the rest of a drain step: the oldest queued block becomes loose and accessible again. */
  function Unquarantine(s: State, l: ListId, h: Ptr, bin: nat): State {
    s.(noAccess := s.noAccess - Range(h, Pow2(bin)),
       lists := s.lists[l := Minus(ListAt(s.lists, l), 0)],
       blk := Reown(s.blk, h, Loose))
  }

  lemma UnquarantineInv(s: State, l: ListId, h: Ptr, bin: nat)
    requires Inv(s) && l in s.lists && l.DelayRing? && s.lists[l] != [] && s.lists[l][0] == h
    requires h in s.blk ==> bin == s.blk[h].bin
    ensures h in s.blk && s.blk[h].own.Delayed?
    ensures Inv(Unquarantine(s, l, h, bin))
    ensures Reachable(Unquarantine(s, l, h, bin).noAccess, h, Pow2(bin))
  {
    assert ListOf(s.blk, s.lists[l], l) && h in s.lists[l];
    var q := s.noAccess - Range(h, Pow2(s.blk[h].bin));
    var b := s.blk[h].(own := Loose);
    ProtectAt(s.mem, s.noAccess, q, s.hdrSize, h, s.blk[h], b);
    OneBlockSound(s, s.mem, q, h, b);
    OneBlockZoned(s, s.mem, q, h, b);
    DetachOwned(s, l, 0);
    ThreadedRing(s, l, Without(s.lists[l], 0));
  }

  lemma ThreadedRing(s: State, l: ListId, q: seq<Ptr>)
    requires Threaded(s) && l.DelayRing?
    ensures Threaded(s.(lists := s.lists[l := q]))
  {
  }

  // ---------------------------------------------------------------- writing inside a block

  /** Rewriting the inside of one block, without touching its links or its list, keeps the invariant. */
  lemma RewriteInv(s: State, m': Mem, h: Ptr, b: Block)
    requires Inv(s) && h in s.blk && b.bin == s.blk[h].bin && Home(b) == Home(s.blk[h])
    requires AgreeOutside(s.mem, m', h, Pow2(b.bin))
    requires SoundAt(m', s.noAccess, s.hdrSize, h, b)
    requires HasHdr(s.mem, h) ==> m'[h].hdr.next == s.mem[h].hdr.next && m'[h].hdr.prev == s.mem[h].hdr.prev
    ensures Inv(s.(mem := m', blk := s.blk[h := b]))
  {
    assert SoundAt(s.mem, s.noAccess, s.hdrSize, h, s.blk[h]);
    OneBlockSound(s, m', s.noAccess, h, b);
    OneBlockZoned(s, m', s.noAccess, h, b);
    RewriteLists(s, m', h, b);
  }

  /** A block waiting for its user data may be given any size. */
  lemma ResizeInv(s: State, h: Ptr, size: nat)
    requires Inv(s) && h in s.blk && s.blk[h].own.Taken?
    ensures Inv(s.(blk := s.blk[h := s.blk[h].(size := size)]))
  {
    BlockFacts(s, h);
    RewriteInv(s, s.mem, h, s.blk[h].(size := size));
  }

  lemma RewriteLists(s: State, m': Mem, h: Ptr, b: Block)
    requires Sound(s) && Apart(s.blk) && Owned(s) && Threaded(s)
    requires h in s.blk && Home(b) == Home(s.blk[h])
    requires AgreeOutside(s.mem, m', h, Pow2(s.blk[h].bin)) && HasHdr(m', h) && HasHdr(s.mem, h)
    requires m'[h].hdr.next == s.mem[h].hdr.next && m'[h].hdr.prev == s.mem[h].hdr.prev
    ensures Owned(s.(mem := m', blk := s.blk[h := b])) && Threaded(s.(mem := m', blk := s.blk[h := b]))
  {
    hide Sound, Apart, Linked, AgreeOutside;
    var blk := s.blk[h := b];
    forall l | l in s.lists ensures ListOf(blk, s.lists[l], l) && (!l.DelayRing? ==> Linked(m', s.lists[l])) {
      assert ListOf(s.blk, s.lists[l], l);
      if !l.DelayRing? {
        RewriteLinked(s, m', h, s.lists[l], l);
      }
    }
  }

  lemma RewriteLinked(s: State, m': Mem, h: Ptr, q: seq<Ptr>, l: ListId)
    requires Sound(s) && Apart(s.blk) && ListOf(s.blk, q, l) && Linked(s.mem, q)
    requires h in s.blk && AgreeOutside(s.mem, m', h, Pow2(s.blk[h].bin)) && HasHdr(m', h) && HasHdr(s.mem, h)
    requires m'[h].hdr.next == s.mem[h].hdr.next && m'[h].hdr.prev == s.mem[h].hdr.prev
    ensures Linked(m', q)
  {
    hide Linked;
    forall x | x in q && x != h ensures x in s.mem && x in m' && m'[x] == s.mem[x] {
      assert SoundAt(s.mem, s.noAccess, s.hdrSize, x, s.blk[x]);
    }
    LinkedFrame(s.mem, m', q);
  }

  // ---------------------------------------------------------------- carving

  /** A freshly cut extent of `size` bytes at h: zeroed, accessible, guarded, and nobody's yet. */
  ghost predicate RawExtent(s: State, h: Ptr, size: nat) {
    && 0 < h && h % PAGE_SIZE == 0
    && IsFilled(s.mem, h, size, 0) && Reachable(s.noAccess, h, size)
    && Mapped(s.mem, h + size, PAGE_SIZE)
    && Blocked(s.noAccess, h + size, PAGE_SIZE) && IsWord(s.mem, h + size, MAGIC_GUARD)
    && (h + size + PAGE_SIZE <= s.lo || s.hi <= h)
    && forall x | x in s.blk :: x + Span(s.blk[x]) <= h || h + size + PAGE_SIZE <= x
  }

  /** The memory part of `getFromPool`: write the guard word, protect the guard page, advance. */
  function Cut(s: State, size: nat): State {
    s.(mem := PutWord(s.mem, s.lo + size, MAGIC_GUARD),
       noAccess := s.noAccess + Range(s.lo + size, PAGE_SIZE),
       lo := s.lo + size + PAGE_SIZE)
  }

  lemma CutInv(s: State, size: nat)
    requires Inv(s) && size > 0 && size % PAGE_SIZE == 0 && s.lo > 0 && size + PAGE_SIZE <= s.hi - s.lo
    ensures Inv(Cut(s, size)) && RawExtent(Cut(s, size), s.lo, size)
  {
    var t := Cut(s, size);
    forall x | x in s.blk
      ensures SameOn(s.mem, t.mem, x, Span(s.blk[x])) && SameAccess(s.noAccess, t.noAccess, x, Span(s.blk[x]))
    {
    }
    SpareSound(s, t);
    assert s.mem.Keys == t.mem.Keys;
    SpareLists(s, t);
    CutExtent(s, size);
  }

  /** What `getFromPool` needs to know before it touches the guard page. */
  lemma CutFacts(s: State, size: nat)
    requires Inv(s) && size % PAGE_SIZE == 0 && size + PAGE_SIZE <= s.hi - s.lo
    ensures NULL !in s.blk && s.lo % PAGE_SIZE == 0 && (s.lo + size) % PAGE_SIZE == 0
    ensures Mapped(s.mem, s.lo + size, PAGE_SIZE) && Reachable(s.noAccess, s.lo + size, PAGE_SIZE)
  {
    ZoneFacts(s);
  }

  lemma CutExtent(s: State, size: nat)
    requires Zoned(s) && size > 0 && size % PAGE_SIZE == 0 && s.lo > 0 && size + PAGE_SIZE <= s.hi - s.lo
    requires forall x | x in s.blk :: Span(s.blk[x]) > 0
    ensures Zoned(Cut(s, size)) && RawExtent(Cut(s, size), s.lo, size)
  {
  }

  /** Memory and protection changes away from every block leave the blocks alone. */
  lemma SpareSound(s: State, t: State)
    requires s.hdrSize >= ELM_HDR_BYTES && Sound(s)
    requires t.blk == s.blk && t.hdrSize == s.hdrSize
    requires forall h | h in s.blk ::
      SameOn(s.mem, t.mem, h, Span(s.blk[h])) && SameAccess(s.noAccess, t.noAccess, h, Span(s.blk[h]))
    ensures Sound(t)
  {
    forall x | x in s.blk ensures SoundAt(t.mem, t.noAccess, t.hdrSize, x, s.blk[x]) {
      BlockFrame(s.mem, t.mem, s.noAccess, t.noAccess, s.hdrSize, x, s.blk[x]);
    }
  }

  /** They leave the lists alone too. */
  lemma SpareLists(s: State, t: State)
    requires Owned(s) && Threaded(s)
    requires t.blk == s.blk && t.lists == s.lists
    requires forall h | h in s.blk && !s.blk[h].own.Loose? :: h in s.mem && h in t.mem && t.mem[h] == s.mem[h]
    ensures Owned(t) && Threaded(t)
  {
    forall l | l in s.lists ensures ListOf(t.blk, t.lists[l], l) && (!l.DelayRing? ==> Linked(t.mem, t.lists[l])) {
      assert ListOf(s.blk, s.lists[l], l);
      if !l.DelayRing? {
        LinkedFrame(s.mem, t.mem, s.lists[l]);
      }
    }
  }

  /** The memory part of `addNewMemPool`. */
  function Grow(s: State, start: Ptr, size: nat): State {
    s.(mem := Fill(s.mem, start, size, 0), lo := start, hi := start + size)
  }

  lemma GrowInv(s: State, start: Ptr, size: nat)
    requires Inv(s) && size > 0 && start % PAGE_SIZE == 0 && size % PAGE_SIZE == 0
    requires forall x | start <= x < start + size :: x !in s.mem
    requires s.noAccess <= s.mem.Keys
    ensures Inv(Grow(s, start, size))
  {
    hide SoundAt, Zoned;
    var t := Grow(s, start, size);
    forall x | x in s.blk
      ensures SameOn(s.mem, t.mem, x, Span(s.blk[x])) && (x + Span(s.blk[x]) <= start || start + size <= x)
    {
      FreshApart(s, start, size, x);
    }
    SpareSound(s, t);
    SpareLists(s, t) by {
      forall h | h in s.blk ensures h in s.mem { FreshApart(s, start, size, h); }
    }
    GrowZone(s, start, size);
  }

  lemma FreshApart(s: State, start: Ptr, size: nat, x: Ptr)
    requires Sound(s) && x in s.blk && size > 0
    requires forall x | start <= x < start + size :: x !in s.mem
    ensures x in s.mem && (x + Span(s.blk[x]) <= start || start + size <= x)
  {
    assert SoundAt(s.mem, s.noAccess, s.hdrSize, x, s.blk[x]);
    var y := if x < start then start else x;
    assert start <= y < start + size && x <= y < x + Span(s.blk[x]) ==> y in s.mem;
  }

  lemma GrowZone(s: State, start: Ptr, size: nat)
    requires start % PAGE_SIZE == 0 && size % PAGE_SIZE == 0
    requires forall x | start <= x < start + size :: x !in s.mem
    requires s.noAccess <= s.mem.Keys
    requires forall x | x in s.blk :: x + Span(s.blk[x]) <= start || start + size <= x
    ensures Zoned(Grow(s, start, size))
  {
  }

  /** The first header stores into a raw extent: the block exists but is on no list yet. */
  function Adopt(s: State, h: Ptr, slot: nat, bin: nat): State {
    s.(mem := OverlayHdr(s.mem, h, ZERO_HDR.(slotNum := slot, binNum := bin, magic := MAGIC_FREE)),
       blk := s.blk[h := Block(slot, bin, Loose, NULL, 0)])
  }

  lemma AdoptInv(s: State, h: Ptr, slot: nat, bin: nat)
    requires Inv(s) && MIN_BIN <= bin < MAX_ALLOC_POWER && RawExtent(s, h, Pow2(bin))
    ensures h !in s.blk && Inv(Adopt(s, h, slot, bin)) && Reachable(s.noAccess, h, Pow2(bin))
  {
    AdoptSound(s, h, slot, bin);
    AdoptApart(s, h, slot, bin);
    AdoptOwned(s, h, Block(slot, bin, Loose, NULL, 0));
    AdoptThreaded(s, h, slot, bin);
  }

  lemma AdoptThreaded(s: State, h: Ptr, slot: nat, bin: nat)
    requires Sound(s) && Owned(s) && Threaded(s) && h !in s.blk && RawExtent(s, h, Pow2(bin)) && bin >= MIN_BIN
    ensures Threaded(Adopt(s, h, slot, bin))
  {
    Pow2Pages(bin);
    var t := Adopt(s, h, slot, bin);
    forall x | x in s.blk ensures x in s.mem && t.mem[x] == s.mem[x] {
      assert SoundAt(s.mem, s.noAccess, s.hdrSize, x, s.blk[x]);
    }
    SpareLists(s, s.(mem := t.mem));
  }

  lemma AdoptApart(s: State, h: Ptr, slot: nat, bin: nat)
    requires Apart(s.blk) && Zoned(s) && RawExtent(s, h, Pow2(bin)) && bin >= MIN_BIN
    ensures Apart(Adopt(s, h, slot, bin).blk) && Zoned(Adopt(s, h, slot, bin))
  {
    Pow2Pages(bin);
    var t := Adopt(s, h, slot, bin);
    assert t.mem.Keys == s.mem.Keys;
    assert IsFilled(t.mem, t.lo, t.hi - t.lo, 0);
    forall a, b | a in t.blk && b in t.blk && a < b ensures a + Span(t.blk[a]) <= b {
      assert a != h && b != h ==> a + Span(s.blk[a]) <= b;
    }
  }

  lemma AdoptSound(s: State, h: Ptr, slot: nat, bin: nat)
    requires s.hdrSize >= ELM_HDR_BYTES && Sound(s)
    requires MIN_BIN <= bin < MAX_ALLOC_POWER && RawExtent(s, h, Pow2(bin))
    ensures Sound(Adopt(s, h, slot, bin)) && h !in s.blk
  {
    Pow2Pages(bin);
    var t := Adopt(s, h, slot, bin);
    AdoptSoundAt(s, h, slot, bin);
    forall x | x in s.blk
      ensures x != h && SameOn(s.mem, t.mem, x, Span(s.blk[x]))
    {
    }
    SpareSound(s, t.(blk := s.blk));
  }

  lemma AdoptSoundAt(s: State, h: Ptr, slot: nat, bin: nat)
    requires MIN_BIN <= bin < MAX_ALLOC_POWER && RawExtent(s, h, Pow2(bin))
    ensures var t := Adopt(s, h, slot, bin); SoundAt(t.mem, t.noAccess, t.hdrSize, h, t.blk[h])
  {
    Pow2Pages(bin);
  }

  lemma AdoptOwned(s: State, h: Ptr, b: Block)
    requires Owned(s) && h !in s.blk && b.own.Loose?
    ensures Owned(s.(blk := s.blk[h := b]))
  {
    forall l | l in s.lists ensures ListOf(s.blk[h := b], s.lists[l], l) {
      assert ListOf(s.blk, s.lists[l], l);
    }
  }

  // ---------------------------------------------------------------- what the code may touch

  lemma BlockReady(s: State, h: Ptr)
    requires Inv(s) && h in s.blk && !s.blk[h].own.Delayed?
    requires s.blk[h].own.Loose? ==> Reachable(s.noAccess, h, Pow2(s.blk[h].bin))
    ensures Ready(s.mem, s.noAccess, h)
    ensures s.mem[h].hdr.slotNum == s.blk[h].slot && s.mem[h].hdr.binNum == s.blk[h].bin
    ensures s.mem[h].hdr.magic == Magic(s.blk[h].own)
  {
    assert SoundAt(s.mem, s.noAccess, s.hdrSize, h, s.blk[h]);
    Pow2Pages(s.blk[h].bin);
  }

  lemma ListReady(s: State, l: ListId)
    requires Inv(s) && l in s.lists && !l.DelayRing?
    ensures Linked(s.mem, s.lists[l])
    ensures forall i | 0 <= i < |s.lists[l]| ::
      s.lists[l][i] in s.blk && Home(s.blk[s.lists[l][i]]) == l && Ready(s.mem, s.noAccess, s.lists[l][i])
  {
    assert ListOf(s.blk, s.lists[l], l);
    forall i | 0 <= i < |s.lists[l]| ensures Ready(s.mem, s.noAccess, s.lists[l][i]) {
      assert s.lists[l][i] in s.lists[l];
      BlockReady(s, s.lists[l][i]);
    }
  }
}
