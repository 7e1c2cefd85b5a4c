// How the fields of a slot are tied to the heap: list heads, list lengths and byte counts.
module Ties {
  import opened Memory
  import opened Lists
  import opened Heap
  import opened Steps
  import opened Accounting

  datatype MemBin = MemBin(
    allocs: nat,
    frees: nat,
    highWater: nat,
    lowWater: nat,
    numFree: nat,
    headFree: Ptr,
    headInUse: Ptr)

  function SumSizes(blk: map<Ptr, Block>, s: seq<Ptr>): nat {
    if s == [] then 0 else (if s[0] in blk then blk[s[0]].size else 0) + SumSizes(blk, s[1..])
  }

  lemma {:induction false} SumSizesFrame(blk: map<Ptr, Block>, blk': map<Ptr, Block>, s: seq<Ptr>)
    requires forall x | x in s :: x in blk && x in blk' && blk'[x].size == blk[x].size
    ensures SumSizes(blk', s) == SumSizes(blk, s)
  {
    if s != [] {
      assert forall x | x in s[1..] :: x in s;
      SumSizesFrame(blk, blk', s[1..]);
    }
  }

  lemma {:induction false} SumSizesWithout(blk: map<Ptr, Block>, s: seq<Ptr>, k: nat)
    requires k < |s| && s[k] in blk
    ensures SumSizes(blk, s) == SumSizes(blk, Without(s, k)) + blk[s[k]].size
  {
    if k == 0 {
      assert Without(s, 0) == s[1..];
    } else {
      SumSizesWithout(blk, s[1..], k - 1);
      assert Without(s, k)[1..] == Without(s[1..], k - 1);
    }
  }

  ghost predicate FreeTie(lists: map<ListId, seq<Ptr>>, i: nat, b: nat, bin: MemBin) {
    && FreeList(i, b) in lists
    && bin.headFree == First(lists[FreeList(i, b)])
    && bin.numFree == |lists[FreeList(i, b)]|
  }

  /** The in-use list has as many blocks as there are unmatched allocations, and they hold the net bytes. */
  ghost predicate UsedTie(blk: map<Ptr, Block>, lists: map<ListId, seq<Ptr>>, log: Log, i: nat, b: nat, bin: MemBin) {
    && UsedList(i, b) in lists
    && bin.headInUse == First(lists[UsedList(i, b)])
    && bin.allocs == Gets(log, b) && bin.frees == Puts(log, b)
    && |lists[UsedList(i, b)]| == bin.allocs - bin.frees
    && SumSizes(blk, lists[UsedList(i, b)]) == NetInBin(log, b)
  }

  ghost predicate RingTie(blk: map<Ptr, Block>, lists: map<ListId, seq<Ptr>>, i: nat, ring: seq<Ptr>, bins: seq<nat>) {
    && DelayRing(i) in lists && lists[DelayRing(i)] == ring
    && |bins| == |ring|
    && forall k | 0 <= k < |ring| :: ring[k] in blk && blk[ring[k]].bin == bins[k]
  }

  ghost predicate FreeTies(lists: map<ListId, seq<Ptr>>, i: nat, bins: seq<MemBin>) {
    |bins| == MAX_ALLOC_POWER && forall b | 0 <= b < MAX_ALLOC_POWER :: FreeTie(lists, i, b, bins[b])
  }

  ghost predicate UsedTies(blk: map<Ptr, Block>, lists: map<ListId, seq<Ptr>>, log: Log, i: nat, bins: seq<MemBin>) {
    |bins| == MAX_ALLOC_POWER && forall b | 0 <= b < MAX_ALLOC_POWER :: UsedTie(blk, lists, log, i, b, bins[b])
  }

  function SlotOf(l: ListId): int {
    match l
    case FreeList(i, _) => i
    case UsedList(i, _) => i
    case DelayRing(i) => i
    case Nowhere => -1
  }

  /** Nothing about slot j's lists, or the sizes of its blocks, differs between s and t. */
  ghost predicate SlotSame(s: State, t: State, j: nat) {
    && t.lists.Keys == s.lists.Keys
    && (forall l | l in s.lists && SlotOf(l) == j :: t.lists[l] == s.lists[l])
    && (forall x | x in s.blk && s.blk[x].slot == j :: x in t.blk && SameSize(s.blk[x], t.blk[x]))
  }

  ghost predicate SameSize(b: Block, b': Block) {
    b'.size == b.size && b'.bin == b.bin && b'.slot == b.slot
  }

  ghost predicate OtherSlotsSame(s: State, t: State, i: nat) {
    forall j: nat | j != i :: SlotSame(s, t, j)
  }

  /** All the ties of one slot. */
  ghost predicate AllTies(blk: map<Ptr, Block>, lists: map<ListId, seq<Ptr>>, i: nat, bins: seq<MemBin>, log: Log, ring: seq<Ptr>, ringBins: seq<nat>) {
    FreeTies(lists, i, bins) && UsedTies(blk, lists, log, i, bins) && RingTie(blk, lists, i, ring, ringBins)
  }

  lemma TiesKept(s: State, t: State, j: nat, bins: seq<MemBin>, log: Log, ring: seq<Ptr>, ringBins: seq<nat>)
    requires Owned(s) && SlotSame(s, t, j)
    requires AllTies(s.blk, s.lists, j, bins, log, ring, ringBins)
    ensures AllTies(t.blk, t.lists, j, bins, log, ring, ringBins)
  {
    forall b | 0 <= b < MAX_ALLOC_POWER
      ensures FreeTie(t.lists, j, b, bins[b]) && UsedTie(t.blk, t.lists, log, j, b, bins[b])
    {
      assert FreeTie(s.lists, j, b, bins[b]);
      UsedTieKept(s, t, j, b, bins[b], log);
    }
    RingTieKept(s, t, j, ring, ringBins);
  }

  lemma UsedTieKept(s: State, t: State, j: nat, b: nat, bin: MemBin, log: Log)
    requires Owned(s) && UsedTie(s.blk, s.lists, log, j, b, bin)
    requires UsedList(j, b) in t.lists && t.lists[UsedList(j, b)] == s.lists[UsedList(j, b)]
    requires forall x | x in s.lists[UsedList(j, b)] && x in s.blk :: x in t.blk && t.blk[x].size == s.blk[x].size
    ensures UsedTie(t.blk, t.lists, log, j, b, bin)
  {
    assert ListOf(s.blk, s.lists[UsedList(j, b)], UsedList(j, b));
    SumSizesFrame(s.blk, t.blk, s.lists[UsedList(j, b)]);
  }

  lemma RingTieKept(s: State, t: State, j: nat, ring: seq<Ptr>, ringBins: seq<nat>)
    requires RingTie(s.blk, s.lists, j, ring, ringBins)
    requires DelayRing(j) in t.lists && t.lists[DelayRing(j)] == ring
    requires forall x | x in ring && x in s.blk :: x in t.blk && t.blk[x].bin == s.blk[x].bin
    ensures RingTie(t.blk, t.lists, j, ring, ringBins)
  {
    forall k | 0 <= k < |ring| ensures ring[k] in t.blk && t.blk[ring[k]].bin == ringBins[k] {
      assert ring[k] in ring;
    }
  }

  /** Refilling free list (i, b), given the new head and count. */
  lemma RefillTies(s: State, t: State, i: nat, b: nat, bins: seq<MemBin>, bins': seq<MemBin>, log: Log, ring: seq<Ptr>, ringBins: seq<nat>)
    requires Owned(s) && b < MAX_ALLOC_POWER
    requires FreeList(i, b) in s.lists && t.lists == s.lists[FreeList(i, b) := ListAt(t.lists, FreeList(i, b))]
    requires forall x | x in s.blk :: x in t.blk && SameSize(s.blk[x], t.blk[x])
    requires AllTies(s.blk, s.lists, i, bins, log, ring, ringBins)
    requires |bins'| == MAX_ALLOC_POWER && FreeTie(t.lists, i, b, bins'[b])
    requires bins' == bins[b := bins[b].(headFree := bins'[b].headFree, numFree := bins'[b].numFree)]
    ensures AllTies(t.blk, t.lists, i, bins', log, ring, ringBins)
  {
    forall c | 0 <= c < MAX_ALLOC_POWER
      ensures FreeTie(t.lists, i, c, bins'[c]) && UsedTie(t.blk, t.lists, log, i, c, bins'[c])
    {
      assert FreeTie(s.lists, i, c, bins[c]);
      UsedTieKept(s, t, i, c, bins[c], log);
    }
    RingTieKept(s, t, i, ring, ringBins);
  }

  // ---------------------------------------------------------------- draining

  /** Blocks of slot i may have left its ring for its free lists; nothing else differs. */
  ghost predicate Drained(s: State, t: State, i: nat) {
    && t.lists.Keys == s.lists.Keys
    && (forall l | l in s.lists && (SlotOf(l) != i || l.UsedList?) :: t.lists[l] == s.lists[l])
    && t.blk.Keys == s.blk.Keys && t.noAccess <= s.noAccess
    && forall x | x in s.blk :: DrainedAt(s.blk[x], t.blk[x], i)
  }

  ghost predicate DrainedAt(b: Block, b': Block, i: nat) {
    b' == b || (b.own.Delayed? && b.slot == i && b' == b.(own := Avail))
  }

  lemma DrainedTrans(s: State, t: State, u: State, i: nat)
    requires Drained(s, t, i) && Drained(t, u, i)
    ensures Drained(s, u, i)
  {
    forall x | x in s.blk ensures DrainedAt(s.blk[x], u.blk[x], i) {
      assert DrainedAt(s.blk[x], t.blk[x], i) && DrainedAt(t.blk[x], u.blk[x], i);
    }
  }

  /** Only the free-list part of the bins differs, and no free list is shorter. */
  ghost predicate SameUse(bins: seq<MemBin>, bins': seq<MemBin>) {
    |bins'| == |bins| && forall b | 0 <= b < |bins| ::
      bins'[b] == bins[b].(headFree := bins'[b].headFree, numFree := bins'[b].numFree) && bins'[b].numFree >= bins[b].numFree
  }

  /** No free list is shorter, and the water marks are the same. */
  ghost predicate NoFewer(bins: seq<MemBin>, bins': seq<MemBin>) {
    |bins'| == |bins| && forall b | 0 <= b < |bins| ::
      bins'[b].numFree >= bins[b].numFree && bins'[b].lowWater == bins[b].lowWater && bins'[b].highWater == bins[b].highWater
  }

  lemma NoFewerTrans(a: seq<MemBin>, b: seq<MemBin>, c: seq<MemBin>)
    requires NoFewer(a, b) && NoFewer(b, c)
    ensures NoFewer(a, c)
  {
  }

  /** One block goes from the front of slot i's ring to the front of its free list. */
  lemma DrainOneTies(s: State, t: State, i: nat, h: Ptr, b: nat, bins: seq<MemBin>, bins': seq<MemBin>)
    requires Owned(s) && DelayRing(i) in s.lists && s.lists[DelayRing(i)] != [] && h == s.lists[DelayRing(i)][0]
    requires h in s.blk && s.blk[h].bin == b < MAX_ALLOC_POWER && FreeList(i, b) in s.lists
    requires t == Attach(Unquarantine(s, DelayRing(i), h, b), FreeList(i, b), h, Avail)
    requires FreeTies(s.lists, i, bins)
    requires |bins'| == MAX_ALLOC_POWER && bins' == bins[b := bins[b].(headFree := h, numFree := bins[b].numFree + 1)]
    ensures Drained(s, t, i) && FreeTies(t.lists, i, bins') && SameUse(bins, bins')
    ensures DelayRing(i) in t.lists && t.lists[DelayRing(i)] == Without(s.lists[DelayRing(i)], 0)
    ensures forall x | x in s.blk :: x in t.blk && t.blk[x].bin == s.blk[x].bin
  {
    assert ListOf(s.blk, s.lists[DelayRing(i)], DelayRing(i)) && h in s.lists[DelayRing(i)];
    forall c | 0 <= c < MAX_ALLOC_POWER ensures FreeTie(t.lists, i, c, bins'[c]) {
      assert FreeTie(s.lists, i, c, bins[c]);
    }
  }

  // ---------------------------------------------------------------- conservation

  function BlocksOf(blk: map<Ptr, Block>, i: nat, b: nat): set<Ptr> {
    set h | h in blk && blk[h].slot == i && blk[h].bin == b
  }

  function DelayedOf(blk: map<Ptr, Block>, i: nat, b: nat): set<Ptr> {
    set h | h in blk && blk[h].slot == i && blk[h].bin == b && blk[h].own.Delayed?
  }

  function Members(s: seq<Ptr>): set<Ptr> {
    set h | h in s
  }

  lemma {:induction false} Distinct(s: seq<Ptr>)
    requires NoDup(s)
    ensures |Members(s)| == |s|
  {
    if s != [] {
      var r := s[1..];
      Distinct(r);
      assert s[0] !in Members(r);
      assert Members(s) == {s[0]} + Members(r);
    }
  }

  lemma ThreeParts(a: set<Ptr>, b: set<Ptr>, c: set<Ptr>)
    requires a !! b && a !! c && b !! c
    ensures |a + b + c| == |a| + |b| + |c|
  {
    assert a * b == {} && (a + b) * c == {};
  }

  /** A block of the slot and bin is on its free list, on its in-use list, or in the ring. */
  lemma CensusAt(s: State, i: nat, b: nat, h: Ptr)
    requires Owned(s) && FreeList(i, b) in s.lists && UsedList(i, b) in s.lists
    requires h in BlocksOf(s.blk, i, b) ==> !s.blk[h].own.Loose?
    ensures h in s.lists[FreeList(i, b)] <==> h in BlocksOf(s.blk, i, b) && s.blk[h].own.Avail?
    ensures h in s.lists[UsedList(i, b)] <==> h in BlocksOf(s.blk, i, b) && !s.blk[h].own.Avail? && !s.blk[h].own.Delayed?
  {
    assert ListOf(s.blk, s.lists[FreeList(i, b)], FreeList(i, b)) && ListOf(s.blk, s.lists[UsedList(i, b)], UsedList(i, b));
  }

  /** Blocks are conserved: those ever carved for a slot and bin are the ones on its free list, on its in-use
      list, and in the ring. */
  lemma Census(s: State, i: nat, b: nat)
    requires Owned(s) && forall h | h in BlocksOf(s.blk, i, b) :: !s.blk[h].own.Loose?
    requires FreeList(i, b) in s.lists && UsedList(i, b) in s.lists
    ensures |BlocksOf(s.blk, i, b)| ==
      |s.lists[FreeList(i, b)]| + |s.lists[UsedList(i, b)]| + |DelayedOf(s.blk, i, b)|
  {
    var f, u := s.lists[FreeList(i, b)], s.lists[UsedList(i, b)];
    Distinct(f) by { assert ListOf(s.blk, f, FreeList(i, b)); }
    Distinct(u) by { assert ListOf(s.blk, u, UsedList(i, b)); }
    hide Owned;
    forall h
      ensures h in Members(f) <==> h in BlocksOf(s.blk, i, b) && s.blk[h].own.Avail?
      ensures h in Members(u) <==> h in BlocksOf(s.blk, i, b) && !s.blk[h].own.Avail? && !s.blk[h].own.Delayed?
    {
      CensusAt(s, i, b, h);
    }
    ThreeParts(Members(f), Members(u), DelayedOf(s.blk, i, b));
    assert BlocksOf(s.blk, i, b) == Members(f) + Members(u) + DelayedOf(s.blk, i, b);
  }
}
