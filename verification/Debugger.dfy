// The debugger scripts: which header an address belongs to, and whether it is in a guard page.
module Debugger {
  import opened Bits
  import opened Memory
  import opened Heap
  import opened Calls
  import opened Runs

  datatype Option<T> = None | Some(value: T)

  /** What a debugger can read of a stopped process: the 64-bit word at each address. */
  type Image = map<Ptr, nat>

  // Offset of binNum in a header
  const BIN_NUM := 8

  /** The image shows the headers and words of memory as they are, and other bytes as anything. */
  ghost predicate ImageOf(im: Image, m: Mem) {
    && (forall a: Ptr | Mapped(m, a, WORD_SIZE) :: a in im)
    && (forall a: Ptr, w: nat | IsWord(m, a, w) :: a in im && im[a] == w)
    && forall a: Ptr | IsHdr(m, a) :: a in im && im[a] == m[a].hdr.magic && a + BIN_NUM in im && im[a + BIN_NUM] == m[a].hdr.binNum
  }

  /** `isValid`. */
  predicate IsMagic(w: nat) {
    w == MAGIC_INUSE || w == MAGIC_FREE
  }

  predicate Marked(im: Image, p: Ptr) {
    p in im && IsMagic(im[p])
  }

  predicate OnPage(p: Ptr) {
    p % PAGE_SIZE == 0
  }

  /** a is the last page start at or before addr whose word is a header magic, and the pages in between
      can be read. */
  ghost predicate Nearest(im: Image, addr: Ptr, a: Ptr) {
    OnPage(a) && a <= addr && Marked(im, a) && forall p: Ptr | a < p <= addr && OnPage(p) :: p in im && !Marked(im, p)
  }

  lemma NearestUnique(im: Image, addr: Ptr, a: Ptr, b: Ptr)
    requires Nearest(im, addr, a) && Nearest(im, addr, b)
    ensures a == b
  {
    assert Marked(im, a) && Marked(im, b);
  }

  /** Masking with 2^64 - 4096 rounds down to a page boundary. */
  lemma MaskRoundsDown(addr: Ptr)
    requires addr < Pow2(64)
    ensures Pow2(64) >= PAGE_SIZE && And(addr, Pow2(64) - PAGE_SIZE) <= addr < And(addr, Pow2(64) - PAGE_SIZE) + PAGE_SIZE
    ensures OnPage(And(addr, Pow2(64) - PAGE_SIZE))
  {
    hide And, Pow2, LowBits, HighBits;
    Pow2Mono(12, 64);
    Pow2Pages(12);
    AndMask(addr, 64, 12);
    SplitBits(addr, 12);
    var q := HighBits(addr, 12);
    assert q * Pow2(12) == q * 4096;
    assert And(addr, Pow2(64) - PAGE_SIZE) == q * 4096;
  }

  /** `addr & mask`. */
  function PageOf(addr: Ptr): (p: Ptr)
    requires addr < Pow2(64)
    ensures OnPage(p) && p <= addr < p + PAGE_SIZE
  {
    MaskRoundsDown(addr);
    And(addr, Pow2(64) - PAGE_SIZE)
  }

  lemma NoPageAbove(addr: Ptr)
    requires addr < Pow2(64)
    ensures forall p: Ptr | PageOf(addr) < p && OnPage(p) :: p > addr
  {
    hide PageOf;
  }

  /** The page-by-page walk of `gr-find-header`; None when it runs into unreadable memory or the first page. */
  method FindHeader(im: Image, addr: Ptr) returns (r: Option<Ptr>)
    requires addr < Pow2(64)
    ensures r.Some? ==> Nearest(im, addr, r.value)
    ensures r.None? ==> forall a: Ptr | a >= PAGE_SIZE :: !Nearest(im, addr, a)
  {
    hide OnPage, PageOf, IsMagic;
    var curr: Ptr := PageOf(addr);
    NoPageAbove(addr);
    while true
      invariant OnPage(curr) && curr <= addr < Pow2(64)
      invariant forall p: Ptr | curr < p <= addr && OnPage(p) :: p in im && !Marked(im, p)
      decreases curr
    {
      if curr !in im {
        return None;
      }
      if IsMagic(im[curr]) {
        return Some(curr);
      }
      if curr <= PAGE_SIZE {
        return None;
      }
      PageBelow(curr);
      curr := curr - PAGE_SIZE;
    }
  }

  /** `gr-heap-meta-corruption`: does addr lie in the guard page behind its header's block?  None when
      the search, a read, or the check of the guard word fails. */
  method HeapMetaCorruption(im: Image, addr: Ptr) returns (verdict: Option<bool>)
    requires addr < Pow2(64)
    ensures verdict.Some? ==> exists h :: Nearest(im, addr, h)
    ensures forall h | h >= PAGE_SIZE && Nearest(im, addr, h) :: verdict == GuardVerdict(im, addr, h)
    ensures verdict.Some? ==> exists h :: Nearest(im, addr, h) && HasGuard(im, h)
    ensures forall h | h >= PAGE_SIZE && Nearest(im, addr, h) ::
      if HasGuard(im, h) then verdict == Some(InGuard(im, h, addr)) else verdict == None
  {
    hide Nearest;
    var curr := FindHeader(im, addr);
    if curr.None? {
      return None;
    }
    forall h | Nearest(im, addr, h) ensures h == curr.value {
      NearestUnique(im, addr, h, curr.value);
    }
    if curr.value + BIN_NUM !in im {
      return None;
    }
    var guardStart := curr.value + Pow2(im[curr.value + BIN_NUM]);
    var guardEnd := guardStart + PAGE_SIZE - 1;
    if guardStart !in im || im[guardStart] != MAGIC_GUARD {
      return None;
    }
    verdict := Some(guardStart <= addr <= guardEnd);
  }

  /** What the guard word behind the header at h says about addr. */
  function GuardVerdict(im: Image, addr: Ptr, h: Ptr): Option<bool> {
    if h + BIN_NUM !in im then None
    else
      var g := h + Pow2(im[h + BIN_NUM]);
      if g in im && im[g] == MAGIC_GUARD then Some(g <= addr < g + PAGE_SIZE) else None
  }

  /** The bin number in the header at h leads to a word that is the guard magic. */
  predicate HasGuard(im: Image, h: Ptr) {
    h + 8 in im && h + Pow2(im[h + 8]) in im && im[h + Pow2(im[h + 8])] == MAGIC_GUARD
  }

  predicate InGuard(im: Image, h: Ptr, addr: Ptr)
    requires HasGuard(im, h)
  {
    h + Pow2(im[h + 8]) <= addr && addr - (h + Pow2(im[h + 8])) < 4096
  }

  /** Pages inside block h, up to addr, that happen to start with a header magic. */
  ghost predicate Decoy(im: Image, s: State, h: Ptr, addr: Ptr, p: Ptr)
    requires h in s.blk
  {
    h < p <= addr && p < h + Pow2(s.blk[h].bin) && OnPage(p) && Marked(im, p)
  }

  /** How a sound block looks in the image. */
  lemma BlockView(s: State, im: Image, h: Ptr)
    requires Inv(s) && h in s.blk && ImageOf(im, s.mem)
    ensures var g := h + Pow2(s.blk[h].bin);
      && PAGE_SIZE <= h && OnPage(h) && OnPage(g) && h < g
      && Marked(im, h) && h + BIN_NUM in im && im[h + BIN_NUM] == s.blk[h].bin
      && g in im && im[g] == MAGIC_GUARD
      && Blocked(s.noAccess, g, PAGE_SIZE)
      && (!s.blk[h].own.Loose? && !s.blk[h].own.Delayed? ==> Reachable(s.noAccess, h, Pow2(s.blk[h].bin)))
      && Mapped(s.mem, h, Span(s.blk[h]))
  {
    hide Inv, IsHdr, IsWord, Mapped, Blocked, Reachable, BackedAt, ImageOf;
    BlockFacts(s, h);
    Pow2Pages(s.blk[h].bin);
    var g := h + Pow2(s.blk[h].bin);
    assert IsHdr(s.mem, h) && IsWord(s.mem, g, MAGIC_GUARD);
    ImageHdr(im, s.mem, h);
    ImageWord(im, s.mem, g, MAGIC_GUARD);
  }

  lemma ImageHdr(im: Image, m: Mem, h: Ptr)
    requires ImageOf(im, m) && IsHdr(m, h)
    ensures h in im && im[h] == m[h].hdr.magic && h + BIN_NUM in im && im[h + BIN_NUM] == m[h].hdr.binNum
  {
    hide IsHdr, IsWord, Mapped;
  }

  lemma ImageWord(im: Image, m: Mem, a: Ptr, w: nat)
    requires ImageOf(im, m) && IsWord(m, a, w)
    ensures a in im && im[a] == w
  {
    hide IsHdr, IsWord, Mapped;
  }

  lemma ImagePage(im: Image, m: Mem, h: Ptr, n: nat, p: Ptr)
    requires ImageOf(im, m) && Mapped(m, h, n) && h <= p && p + PAGE_SIZE <= h + n
    ensures p in im
  {
    hide IsHdr, IsWord;
    assert Mapped(m, p, WORD_SIZE);
  }

  lemma PageBelow(p: Ptr)
    requires OnPage(p) && p > PAGE_SIZE
    ensures OnPage(p - PAGE_SIZE)
    ensures forall q: Ptr | p - PAGE_SIZE < q <= p && OnPage(q) :: q == p
  {
  }

  /** For an address anywhere in a carved block or its guard page, the walk ends at exactly that block's
      header, unless one of the pages it crosses starts with a header magic. */
  lemma WalkFindsHeader(s: State, im: Image, h: Ptr, addr: Ptr)
    requires Inv(s) && h in s.blk && h <= addr < h + Span(s.blk[h]) && ImageOf(im, s.mem)
    ensures Nearest(im, addr, h) <==> !exists p :: Decoy(im, s, h, addr, p)
  {
    hide Inv, ImageOf, Mapped, Reachable, Blocked, OnPage;
    BlockView(s, im, h);
    var g := h + Pow2(s.blk[h].bin);
    forall p: Ptr | h < p <= addr && OnPage(p)
      ensures p in im && (Marked(im, p) <==> Decoy(im, s, h, addr, p))
    {
      PageInside(g, p);
      ImagePage(im, s.mem, h, Span(s.blk[h]), p);
    }
  }

  /** A page that starts below the end of the guard page at g ends by then, and is g if it is not below g. */
  lemma PageInside(g: Ptr, p: Ptr)
    requires OnPage(g) && OnPage(p) && p < g + PAGE_SIZE
    ensures p + PAGE_SIZE <= g || p == g
  {
  }

  /** The guard check on the header the walk finds always succeeds, and it reports corruption exactly for
      the addresses of the guard page; for a block out of quarantine, those whose access faults. */
  lemma CorruptionExact(s: State, im: Image, h: Ptr, addr: Ptr)
    requires Inv(s) && h in s.blk && h <= addr < h + Span(s.blk[h]) && ImageOf(im, s.mem)
    ensures GuardVerdict(im, addr, h) == Some(h + Pow2(s.blk[h].bin) <= addr)
    ensures !s.blk[h].own.Loose? && !s.blk[h].own.Delayed? ==> GuardVerdict(im, addr, h) == Some(addr in s.noAccess)
    ensures h >= PAGE_SIZE
  {
    hide Inv, ImageOf, Mapped, OnPage;
    BlockView(s, im, h);
  }

  /** An example of the decoy: a page of user data that starts with the in-use magic hides the header. */
  lemma DecoyHides(s: State, im: Image, h: Ptr)
    requires Inv(s) && h in s.blk && s.blk[h].bin > MIN_BIN && ImageOf(im, s.mem)
    requires IsWord(s.mem, h + PAGE_SIZE, MAGIC_INUSE)
    ensures !Nearest(im, h + PAGE_SIZE, h) && Nearest(im, h + PAGE_SIZE, h + PAGE_SIZE)
  {
    hide Inv, ImageOf, Mapped, Reachable, Blocked;
    BlockView(s, im, h);
    ImageWord(im, s.mem, h + PAGE_SIZE, MAGIC_INUSE);
    assert Marked(im, h + PAGE_SIZE);
  }

  /** A program comes by such a page without doing anything wrong: all it takes is to store that word where its
      own data covers the start of the block's second page. */
  lemma DecoyStored(s: State, h: Ptr)
    requires Inv(s) && h in s.blk && s.blk[h].own.Used?
    requires s.blk[h].usr <= h + PAGE_SIZE && h + PAGE_SIZE + WORD_SIZE <= s.blk[h].usr + s.blk[h].size
    ensures var t := s.(mem := PutWord(s.mem, h + PAGE_SIZE, MAGIC_INUSE)); var b := s.blk[h];
      && Inv(t) && Mapped(t.mem, b.usr, b.size) && Takes(s, Store(h, b.usr, Cells(t.mem, b.usr, b.size)), t)
      && forall im | ImageOf(im, t.mem) :: !Nearest(im, h + PAGE_SIZE, h) && Nearest(im, h + PAGE_SIZE, h + PAGE_SIZE)
           && (GuardVerdict(im, h + PAGE_SIZE, h + PAGE_SIZE).None? <==> !HasGuard(im, h + PAGE_SIZE))
  {
    hide Inv, ImageOf, Nearest, Takes, Cells, Mapped, PutWord, IsWord, AgreeOutside, Stored, Pow2, OnPage;
    var t := s.(mem := PutWord(s.mem, h + PAGE_SIZE, MAGIC_INUSE));
    Pow2Pages(MIN_BIN);
    Pow2Mono(s.blk[h].bin, Max(s.blk[h].bin, MIN_BIN));
    LiveMapped(s, h);
    WordInside(s.mem, s.blk[h].usr, s.blk[h].size, h + PAGE_SIZE, MAGIC_INUSE);
    StoreInv(s, t.mem, h);
    StoreTakes(s, t.mem, h);
    forall im | ImageOf(im, t.mem)
      ensures !Nearest(im, h + PAGE_SIZE, h) && Nearest(im, h + PAGE_SIZE, h + PAGE_SIZE)
      ensures GuardVerdict(im, h + PAGE_SIZE, h + PAGE_SIZE).None? <==> !HasGuard(im, h + PAGE_SIZE)
    {
      DecoyHides(t, im, h);
      DecoyBlinds(t, im, h);
    }
  }

  /** What comes of it: the check of the guard word then fails unless the page also carries a bin number that leads to
      a guard page, and the command gives no verdict for an address it would otherwise have cleared. */
  lemma DecoyBlinds(s: State, im: Image, h: Ptr)
    requires Inv(s) && h in s.blk && s.blk[h].own.Used? && s.blk[h].bin > MIN_BIN && ImageOf(im, s.mem)
    requires IsWord(s.mem, h + PAGE_SIZE, MAGIC_INUSE)
    ensures GuardVerdict(im, h + PAGE_SIZE, h) == Some(false)
    ensures Nearest(im, h + PAGE_SIZE, h + PAGE_SIZE)
    ensures GuardVerdict(im, h + PAGE_SIZE, h + PAGE_SIZE).None? <==> !HasGuard(im, h + PAGE_SIZE)
  {
    hide Inv, ImageOf, Mapped, IsWord, Nearest, Reachable, Blocked;
    DecoyHides(s, im, h);
    BlockView(s, im, h);
    Pow2Pages(MIN_BIN);
    Pow2Mono(MIN_BIN + 1, s.blk[h].bin);
    CorruptionExact(s, im, h, h + PAGE_SIZE);
  }

  lemma LiveMapped(s: State, h: Ptr)
    requires Inv(s) && h in s.blk && s.blk[h].own.Used?
    ensures Mapped(s.mem, s.blk[h].usr, s.blk[h].size) && s.blk[h].usr + s.blk[h].size <= h + Pow2(s.blk[h].bin)
  {
    hide Inv;
    BlockFacts(s, h);
  }

  lemma WordInside(m: Mem, usr: Ptr, size: nat, a: Ptr, w: nat)
    requires Mapped(m, usr, size) && usr <= a && a + WORD_SIZE <= usr + size
    ensures AgreeOutside(m, PutWord(m, a, w), usr, size) && IsWord(PutWord(m, a, w), a, w)
  {
    assert PutWord(m, a, w).Keys == m.Keys;
  }
}
