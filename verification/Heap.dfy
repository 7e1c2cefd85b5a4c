// The heap: carved blocks, their owners, the lists they are on, and the invariant that ties them to memory.
module Heap {
  import opened Bits
  import opened Memory
  import opened Lists

  const MIN_BIN := 12
  const MAX_ALLOC_POWER := 40

  /** Where a carved block is in its life.  Taken and Leaving are the two windows in which a block
      is on an in-use list while its header still (or already) carries the free magic; Loose is a
      block between two lists. */
  datatype Owner = Loose | Avail | Taken | Used | Leaving | Delayed

  datatype Block = Block(slot: nat, bin: nat, own: Owner, usr: Ptr, size: nat)

  datatype ListId = FreeList(slot: nat, bin: nat) | UsedList(slot: nat, bin: nat) | DelayRing(slot: nat) | Nowhere

  /** The lists of an allocator with this many slots. */
  ghost predicate IsListId(l: ListId, numSlots: nat) {
    match l
    case FreeList(i, b) => i < numSlots && b < MAX_ALLOC_POWER
    case UsedList(i, b) => i < numSlots && b < MAX_ALLOC_POWER
    case DelayRing(i) => i < numSlots
    case Nowhere => false
  }

  ghost predicate ListsOk(keys: set<ListId>, numSlots: nat) {
    forall l :: l in keys <==> IsListId(l, numSlots)
  }

  function Home(b: Block): ListId {
    match b.own
    case Loose => Nowhere
    case Avail => FreeList(b.slot, b.bin)
    case Taken => UsedList(b.slot, b.bin)
    case Used => UsedList(b.slot, b.bin)
    case Leaving => UsedList(b.slot, b.bin)
    case Delayed => DelayRing(b.slot)
  }

  function Magic(o: Owner): nat {
    if o.Used? then MAGIC_INUSE else MAGIC_FREE
  }

  /** Usable bytes plus the guard page. */
  function Span(b: Block): nat {
    Pow2(b.bin) + PAGE_SIZE
  }

  /** [lo, hi) is the part of the current pool that has not been carved yet. */
  datatype State = State(
    mem: Mem,
    noAccess: set<Ptr>,
    blk: map<Ptr, Block>,
    lists: map<ListId, seq<Ptr>>,
    lo: Ptr,
    hi: Ptr,
    hdrSize: nat)

  /** A carved block lies on whole mapped pages and starts with its own intact header. */
  ghost predicate PlacedAt(m: Mem, h: Ptr, b: Block) {
    && 0 < h && h % PAGE_SIZE == 0
    && MIN_BIN <= b.bin < MAX_ALLOC_POWER
    && Mapped(m, h, Span(b))
    && IsHdr(m, h)
    && m[h].hdr.slotNum == b.slot && m[h].hdr.binNum == b.bin
    && m[h].hdr.magic == Magic(b.own)
  }

  /** Blocks with their guard pages never overlap. */
  ghost predicate Apart(blk: map<Ptr, Block>) {
    forall a, b | a in blk && b in blk && a < b :: a + Span(blk[a]) <= b
  }

  ghost predicate ListOf(blk: map<Ptr, Block>, s: seq<Ptr>, l: ListId) {
    NoDup(s) && forall h :: h in s <==> h in blk && Home(blk[h]) == l
  }

  /** Single ownership: a block is on the one list its header and its owner name, once, and on no other. */
  ghost predicate Owned(s: State) {
    && Nowhere !in s.lists
    && (forall h | h in s.blk && !s.blk[h].own.Loose? :: Home(s.blk[h]) in s.lists)
    && forall l | l in s.lists :: ListOf(s.blk, s.lists[l], l)
  }

  /** Every free and in-use list is well linked through the headers in memory. */
  ghost predicate Threaded(s: State) {
    forall l | l in s.lists && !l.DelayRing? :: Linked(s.mem, s.lists[l])
  }

  /** Page protection follows ownership; guard pages are never accessible. */
  ghost predicate GuardedAt(m: Mem, noAccess: set<Ptr>, h: Ptr, b: Block) {
    && Blocked(noAccess, h + Pow2(b.bin), PAGE_SIZE)
    && IsWord(m, h + Pow2(b.bin), MAGIC_GUARD)
    && match b.own
       case Loose => true
       case Delayed => Blocked(noAccess, h, Pow2(b.bin))
       case _ => Reachable(noAccess, h, Pow2(b.bin))
  }

  /** usr is the pointer last handed out from this block; the word before it leads back to the header. */
  ghost predicate BackedAt(m: Mem, hdrSize: nat, h: Ptr, b: Block) {
    && (b.usr != NULL ==>
          && h + hdrSize + WORD_SIZE <= b.usr <= h + Pow2(b.bin)
          && IsWord(m, b.usr - WORD_SIZE, h))
    && (b.own.Used? || b.own.Leaving? ==>
          && b.usr != NULL && b.usr + b.size <= h + Pow2(b.bin)
          && HasHdr(m, h)
          && m[h].hdr.usrData == b.usr && m[h].hdr.usrDataSize == b.size
          && m[h].hdr.misalignment == h + Pow2(b.bin) - b.usr - b.size)
  }

  ghost predicate SoundAt(m: Mem, noAccess: set<Ptr>, hdrSize: nat, h: Ptr, b: Block) {
    PlacedAt(m, h, b) && GuardedAt(m, noAccess, h, b) && BackedAt(m, hdrSize, h, b)
  }

  ghost predicate Sound(s: State) {
    forall h | h in s.blk :: SoundAt(s.mem, s.noAccess, s.hdrSize, h, s.blk[h])
  }

  /** The uncarved zone is page-aligned, zeroed, accessible, and apart from every block. */
  ghost predicate Zoned(s: State) {
    && s.lo <= s.hi && s.lo % PAGE_SIZE == 0 && s.hi % PAGE_SIZE == 0
    && IsFilled(s.mem, s.lo, s.hi - s.lo, 0)
    && Reachable(s.noAccess, s.lo, s.hi - s.lo)
    && forall h | h in s.blk :: h + Span(s.blk[h]) <= s.lo || s.hi <= h
  }

  ghost predicate Inv(s: State) {
    && s.hdrSize >= ELM_HDR_BYTES
    && Sound(s) && Apart(s.blk) && Owned(s) && Threaded(s) && Zoned(s)
  }

  lemma ZoneFacts(s: State)
    requires Inv(s)
    ensures NULL !in s.blk && Zoned(s)
  {
    assert NULL in s.blk ==> SoundAt(s.mem, s.noAccess, s.hdrSize, NULL, s.blk[NULL]);
  }

  lemma InvGood(s: State)
    requires Inv(s)
    ensures s.hdrSize >= ELM_HDR_BYTES && Sound(s) && Apart(s.blk) && Owned(s)
  {
  }

  lemma BlockFacts(s: State, h: Ptr)
    requires Inv(s) && h in s.blk
    ensures SoundAt(s.mem, s.noAccess, s.hdrSize, h, s.blk[h])
    ensures s.blk[h].own.Loose? || Home(s.blk[h]) in s.lists
  {
  }

  lemma ListFacts(s: State, l: ListId)
    requires Inv(s) && l in s.lists
    ensures ListOf(s.blk, s.lists[l], l)
    ensures !l.DelayRing? ==> Linked(s.mem, s.lists[l])
  {
  }

  // ---------------------------------------------------------------- the client's view

  lemma UsrInjective(s: State, a: Ptr, b: Ptr)
    requires Apart(s.blk) && Sound(s)
    requires a in s.blk && b in s.blk && s.blk[a].usr == s.blk[b].usr != NULL
    ensures a == b
  {
    assert SoundAt(s.mem, s.noAccess, s.hdrSize, a, s.blk[a]) && SoundAt(s.mem, s.noAccess, s.hdrSize, b, s.blk[b]);
  }

  /** The block holding a live user pointer, if any. */
  ghost predicate LiveAt(s: State, p: Ptr, h: Ptr) {
    h in s.blk && s.blk[h].own.Used? && s.blk[h].usr == p
  }

  ghost predicate IsLive(s: State, p: Ptr) {
    exists h :: LiveAt(s, p, h)
  }

  ghost function HeaderOf(s: State, p: Ptr): (h: Ptr)
    requires IsLive(s, p)
    ensures LiveAt(s, p, h)
  {
    var h :| LiveAt(s, p, h);
    h
  }

  ghost function LivePtrs(s: State): (r: set<Ptr>)
    ensures forall p :: p in r <==> IsLive(s, p)
  {
    var r := set h | h in s.blk && s.blk[h].own.Used? :: s.blk[h].usr;
    assert forall p :: p in r <==> IsLive(s, p) by {
      forall p ensures p in r <==> IsLive(s, p) {
        if p in r {
          var h :| h in s.blk && s.blk[h].own.Used? && s.blk[h].usr == p;
          assert LiveAt(s, p, h);
        }
        if IsLive(s, p) {
          assert LiveAt(s, p, HeaderOf(s, p));
        }
      }
    }
    r
  }

  ghost function Contents(s: State, p: Ptr): seq<Cell>
    requires Sound(s) && IsLive(s, p)
  {
    var h := HeaderOf(s, p);
    assert SoundAt(s.mem, s.noAccess, s.hdrSize, h, s.blk[h]);
    Cells(s.mem, p, s.blk[h].size)
  }

  /** What the client may rely on: a map from each live pointer to the bytes behind it. */
  ghost function Client(s: State): map<Ptr, seq<Cell>>
    requires Sound(s)
  {
    map p | p in LivePtrs(s) :: Contents(s, p)
  }
}
