// The allocator: slots of size-class bins, carved from growing pools, behind malloc and free.
module Allocator {
  import opened Bits
  import opened Memory
  import opened Lists
  import opened Heap
  import opened Steps
  import opened Evolve
  import opened Accounting
  import opened Ties
  import opened DelayFree
  import opened Pools
  import opened Slots
  import opened UserData
  import opened Calls
  import opened Runs
  import opened Safety
  import L = Layout

  const MAX_SLOTS := 128
  const MAX_PREALLOC_POWER := 18
  const START_POOL_MULT := 2
  const MAX_FLOATING_SIZE := 1048576
  const EINVAL := 22
  const ENOMEM := 12

  /** Requests below a megabyte go round the slots; larger ones all go to slot 0. */
  function SlotFor(usrSize: nat, racySlotRr: nat, numSlots: nat): nat {
    if usrSize < MAX_FLOATING_SIZE && numSlots > 0 then racySlotRr % numSlots else 0
  }

  /** Which slot serves a request, and what becomes of the counter. */
  predicate Rotates(usrSize: nat, numSlots: nat, rr: nat, slot: nat, rr': nat)
    requires numSlots > 0
  {
    if usrSize < 1048576 then slot == rr % numSlots && rr' == (rr + 1) % 0x1_0000_0000_0000_0000 else slot == 0 && rr' == rr
  }

  /** Requests below a megabyte go round: any numSlots of them in a row, until the counter wraps, are served by
      as many different slots.  (`rrs` is the counter before each of them, and after the last.) */
  lemma RoundRobin(numSlots: nat, sizes: seq<nat>, rrs: seq<nat>, slots: seq<nat>)
    requires numSlots > 0 && |slots| == |sizes| == numSlots && |rrs| == numSlots + 1
    requires forall i | 0 <= i < numSlots :: sizes[i] < 1048576 && Rotates(sizes[i], numSlots, rrs[i], slots[i], rrs[i + 1])
    requires rrs[0] + numSlots <= 0x1_0000_0000_0000_0000
    ensures forall i, j | 0 <= i < j < numSlots :: slots[i] != slots[j]
    ensures forall i | 0 <= i < numSlots :: slots[i] < numSlots
  {
    hide Rotates;
    forall i | 0 <= i < numSlots ensures slots[i] < numSlots {
      SlotServed(sizes[i], numSlots, rrs[i], slots[i], rrs[i + 1]);
    }
    forall i, j | 0 <= i < j < numSlots ensures slots[i] != slots[j] {
      CounterAt(numSlots, sizes, rrs, slots, i);
      CounterAt(numSlots, sizes, rrs, slots, j);
      SlotServed(sizes[i], numSlots, rrs[i], slots[i], rrs[i + 1]);
      SlotServed(sizes[j], numSlots, rrs[j], slots[j], rrs[j + 1]);
      Residues(rrs[i], rrs[j], numSlots);
    }
  }

  lemma {:induction false} CounterAt(numSlots: nat, sizes: seq<nat>, rrs: seq<nat>, slots: seq<nat>, i: nat)
    requires numSlots > 0 && |slots| == |sizes| == numSlots && |rrs| == numSlots + 1 && i < numSlots
    requires forall i | 0 <= i < numSlots :: sizes[i] < 1048576 && Rotates(sizes[i], numSlots, rrs[i], slots[i], rrs[i + 1])
    requires rrs[0] + numSlots <= 0x1_0000_0000_0000_0000
    ensures rrs[i] == rrs[0] + i
  {
    hide Rotates;
    if i > 0 {
      CounterAt(numSlots, sizes, rrs, slots, i - 1);
      CounterMoves(sizes[i - 1], numSlots, rrs[i - 1], slots[i - 1], rrs[i]);
    }
  }

  lemma SlotServed(size: nat, numSlots: nat, rr: nat, slot: nat, rr': nat)
    requires numSlots > 0 && size < 1048576 && Rotates(size, numSlots, rr, slot, rr')
    ensures slot == rr % numSlots && slot < numSlots
  {
  }

  lemma CounterMoves(size: nat, numSlots: nat, rr: nat, slot: nat, rr': nat)
    requires numSlots > 0 && size < 1048576 && Rotates(size, numSlots, rr, slot, rr') && rr + 1 < 0x1_0000_0000_0000_0000
    ensures rr' == rr + 1
  {
  }

  lemma Residues(x: nat, y: nat, n: nat)
    requires x < y < x + n
    ensures x % n != y % n
  {
    if x % n == y % n {
      var a, b := x / n, y / n;
      assert y - x == Times(b, n) - Times(a, n);
      MulMono(a + 1, Max(a + 1, b), n);
      MulMono(b, Max(a, b), n);
      MulStep(a, n);
    }
  }

  /** The i-th history has one more entry. */
  function Appended<T>(all: seq<seq<T>>, i: nat, e: T): seq<seq<T>> {
    if i < |all| then all[i := all[i] + [e]] else all
  }

  /** The run-time arguments, and the ring capacity. */
  datatype Config = Config(numSlots: nat, delayCap: nat, hdrSize: nat, useDelay: bool, poison: bool, poisonVal: nat, dumpInterval: nat)

  ghost predicate ValidConfig(c: Config) {
    1 <= c.numSlots < MAX_SLOTS && c.delayCap >= 4 && c.delayCap % 4 == 0 && c.hdrSize >= ELM_HDR_BYTES
  }

  /** Aborted is a failed GR_ASSERT_ALWAYS, Segv a touch of an inaccessible page: both end the process. */
  datatype Status = Ok | NoMemory | Aborted | Segv

  ghost function BinsOf(blk: map<Ptr, Block>): map<Ptr, nat> {
    map h | h in blk :: blk[h].bin
  }

  ghost function EmptyLists(n: nat): map<ListId, seq<Ptr>> {
    var rings := set i | 0 <= i < n :: DelayRing(i);
    var frees := set i, b | 0 <= i < n && 0 <= b < MAX_ALLOC_POWER :: FreeList(i, b);
    var useds := set i, b | 0 <= i < n && 0 <= b < MAX_ALLOC_POWER :: UsedList(i, b);
    map l | l in rings + frees + useds :: []
  }

  lemma EmptyListsAre(n: nat)
    ensures forall l :: l in EmptyLists(n) <==> IsListId(l, n)
    ensures forall l | l in EmptyLists(n) :: EmptyLists(n)[l] == []
  {
  }

  lemma EmptyTies(blk: map<Ptr, Block>, lists: map<ListId, seq<Ptr>>, n: nat, i: nat, bins: seq<MemBin>)
    requires i < n && lists == EmptyLists(n) && |bins| == MAX_ALLOC_POWER
    requires forall b | 0 <= b < MAX_ALLOC_POWER :: bins[b].(lowWater := 0, highWater := 0) == MemBin(0, 0, 0, 0, 0, NULL, NULL)
    ensures AllTies(blk, lists, i, bins, [], [], [])
  {
    EmptyListsAre(n);
    forall b | 0 <= b < MAX_ALLOC_POWER ensures FreeTie(lists, i, b, bins[b]) && UsedTie(blk, lists, [], i, b, bins[b]) {
      assert IsListId(FreeList(i, b), n) && IsListId(UsedList(i, b), n);
    }
    assert IsListId(DelayRing(i), n);
  }

  ghost predicate FreshSlot(m: MemSlot, interval: nat)
    reads m, m.delay, m.delay.elms
  {
    && m.Counted(interval) && m.log == [] && m.delay.Valid() && m.OnSchedule() && m.delay.Contents() == [] && m.delay.bins == []
    && |m.memBins| == MAX_ALLOC_POWER
    && forall b | 0 <= b < MAX_ALLOC_POWER :: m.memBins[b] == MemBin(0, 0, 0, 0, 0, NULL, NULL)
  }

  lemma FreshTied(m: MemSlot, blk: map<Ptr, Block>, lists: map<ListId, seq<Ptr>>, cfg: Config, i: nat)
    requires FreshSlot(m, cfg.dumpInterval) && m.num == i < cfg.numSlots && lists == EmptyLists(cfg.numSlots)
    ensures m.Counted(cfg.dumpInterval) && m.Tied(blk, lists) && m.memBins == BinsUpTo(MIN_BIN) && m.log == []
  {
    EmptyTies(blk, lists, cfg.numSlots, i, m.memBins);
  }

  lemma EmptyInv(s: State)
    requires s.blk == map[] && s.hdrSize >= ELM_HDR_BYTES && s.lo == s.hi == 0 && Nowhere !in s.lists
    requires forall l | l in s.lists :: s.lists[l] == []
    ensures Inv(s)
  {
  }

  /** Why an allocating call ends as it does, when the request would bring the pools to `goal` and they are now at
      `now`: it aborts exactly if that is more pools than the table holds, and it fails exactly if the kernel
      refused to map one of them, which then happened once. */
  predicate Explained(st: Status, goal: Reserve, now: Reserve, refusalsBefore: nat, refusals: nat) {
    && !st.Segv? && now.last <= MAX_MEM_POOLS
    && (st.Aborted? <==> now.last == MAX_MEM_POOLS)
    && (st.Ok? ==> now == goal)
    && (st.NoMemory? ==> now.last < goal.last)
    && (!st.NoMemory? ==> (st.Aborted? <==> goal.last >= MAX_MEM_POOLS))
    && refusals == (if st.NoMemory? then refusalsBefore + 1 else refusalsBefore)
  }

  lemma ExplainedStart(r: Reserve, refused: nat)
    requires r.last < MAX_MEM_POOLS
    ensures Explained(Ok, r, r, refused, refused)
  {
  }

  /** What stops a later part of a request stops all of it. */
  lemma ExplainedThen(st: Status, r1: Reserve, near: Reserve, goal: Reserve, r2: Reserve, refused0: nat, refused1: nat, refused2: nat)
    requires Explained(Ok, r1, r1, refused0, refused1) && Explained(st, near, r2, refused1, refused2)
    requires near.last <= goal.last
    ensures if st.Ok? then r2 == near && Explained(Ok, r2, r2, refused0, refused2) else Explained(st, goal, r2, refused0, refused2)
  {
  }

  ghost predicate NewSlots(slots: seq<MemSlot>, cfg: Config)
    reads slots, set m | m in slots :: m.delay, set m | m in slots :: m.delay.elms
  {
    && (forall i | 0 <= i < |slots| ::
          slots[i].num == i && slots[i].delay.num == i && slots[i].delay.cap == cfg.delayCap)
    && (forall i, j | 0 <= i < j < |slots| :: slots[i].delay.elms != slots[j].delay.elms)
    && forall i | 0 <= i < |slots| :: FreshSlot(slots[i], cfg.dumpInterval)
  }

  method MakeSlots(cfg: Config) returns (slots: seq<MemSlot>)
    requires ValidConfig(cfg)
    ensures |slots| == cfg.numSlots && NewSlots(slots, cfg)
    ensures forall m | m in slots :: fresh(m) && fresh(m.delay) && fresh(m.delay.elms)
  {
    hide FreshSlot;
    slots := [];
    while |slots| < cfg.numSlots
      invariant |slots| <= cfg.numSlots && NewSlots(slots, cfg)
      invariant forall m | m in slots :: fresh(m) && fresh(m.delay) && fresh(m.delay.elms)
    {
      var m := NewSlot(|slots|, cfg);
      slots := slots + [m];
    }
  }

  method NewSlot(num: nat, cfg: Config) returns (m: MemSlot)
    requires ValidConfig(cfg)
    ensures m.num == num && m.delay.num == num && m.delay.cap == cfg.delayCap && FreshSlot(m, cfg.dumpInterval)
    ensures fresh(m) && fresh(m.delay) && fresh(m.delay.elms)
  {
    m := new MemSlot(num, cfg.delayCap, cfg.dumpInterval);
  }

  class GuardRails {
    const cfg: Config
    const space: AddressSpace
    const memSlots: seq<MemSlot>
    var memPools: seq<MemPool>
    var isInit: bool
    var currMemPool: int
    var racySlotRr: nat

    // Every carved block, every list, and the uncarved rest of the current pool
    ghost var blk: map<Ptr, Block>
    ghost var lists: map<ListId, seq<Ptr>>
    ghost var lo: Ptr
    ghost var hi: Ptr
    // The pools as values, and the pool and position in it of every carved block
    ghost var pools: seq<PoolView>
    ghost var spot: map<Ptr, (nat, nat)>

    ghost function Rings(): set<MemFreeDelay> {
      set m | m in memSlots :: m.delay
    }

    ghost function Arrays(): set<array<Ptr>> {
      set m | m in memSlots :: m.delay.elms
    }

    ghost function Snap(): State
      reads this`blk, this`lists, this`lo, this`hi, space
    {
      State(space.mem, space.noAccess, blk, lists, lo, hi, cfg.hdrSize)
    }

    ghost function Reserves(): Reserve
      reads this`currMemPool, this`lo, this`hi
    {
      Reserve(currMemPool, hi - lo)
    }

    /** What never changes: which objects make up the allocator. */
    ghost predicate Shape() {
      && ValidConfig(cfg)
      && |memSlots| == cfg.numSlots
      && (forall i | 0 <= i < |memSlots| ::
            memSlots[i].num == i && memSlots[i].delay.num == i && memSlots[i].delay.cap == cfg.delayCap)
      && (forall i, j | 0 <= i < j < |memSlots| :: memSlots[i].delay.elms != memSlots[j].delay.elms)
    }

    /** The pools in use, their tiles, and the uncarved rest of the current one. */
    ghost predicate PoolsOk(bins: map<Ptr, nat>, raw: Tile)
      reads this`currMemPool, this`memPools, this`lo, this`hi, this`pools, this`spot
    {
      && currMemPool == |pools| - 1 && |pools| <= |memPools| == MAX_MEM_POOLS
      && (forall i | 0 <= i < |pools| :: Shows(memPools[i], pools[i]))
      && Laid(pools, bins, spot, raw)
      && (if pools == [] then lo == hi else 0 < lo == StartFree(pools[currMemPool]) && hi == PoolEnd(pools[currMemPool]))
    }

    ghost predicate HeapOk(raw: Tile)
      reads this`currMemPool, this`blk, this`lists, this`lo, this`hi, this`pools, this`spot, this`memPools, space
    {
      Shape() && space.Valid() && Inv(Snap()) && PoolsOk(BinsOf(blk), raw) && ListsOk(lists.Keys, cfg.numSlots)
    }

    lemma HeapInv(raw: Tile)
      requires HeapOk(raw)
      ensures Inv(Snap()) && NULL !in blk
    {
      ZoneFacts(Snap());
    }

    lemma PoolLeft(raw: Tile)
      requires HeapOk(raw)
      ensures currMemPool < MAX_MEM_POOLS
    {
    }

    lemma HeapShape(raw: Tile)
      requires HeapOk(raw)
      ensures Shape()
    {
    }

    ghost predicate SlotsOk()
      reads this`blk, this`lists, memSlots, Rings(), Arrays()
    {
      forall i | 0 <= i < |memSlots| :: memSlots[i].Counted(cfg.dumpInterval) && memSlots[i].Tied(blk, lists)
    }

    ghost predicate Valid()
      reads this, space, memSlots, Rings(), Arrays()
    {
      HeapOk(NO_TILE) && SlotsOk()
    }

    constructor (cfg: Config)
      requires ValidConfig(cfg)
      ensures this.cfg == cfg && Virgin() && blk == map[]
      ensures fresh(space) && forall i | 0 <= i < |memSlots| :: fresh(memSlots[i])
    {
      var slots := MakeSlots(cfg);
      var sp := new AddressSpace();
      this.cfg, space, memSlots := cfg, sp, slots;
      memPools := seq(MAX_MEM_POOLS, _ => MemPool(0, 0, NULL, NULL, NULL));
      isInit, currMemPool, racySlotRr := false, -1, 0;
      blk, lo, hi, pools, spot := map[], 0, 0, [], map[];
      lists := EmptyLists(cfg.numSlots);
      new;
      hide FreshSlot, MemSlot.Tied, Tally, Inv, EmptyLists, BinsUpTo, Virgin;
      NowVirgin();
    }

    lemma NowVirgin()
      requires Shape() && space.Valid() && NewSlots(memSlots, cfg) && !isInit && currMemPool == -1 && |memPools| == MAX_MEM_POOLS
      requires blk == map[] && lo == hi == 0 && pools == [] && spot == map[] && lists == EmptyLists(cfg.numSlots)
      ensures Virgin()
    {
      hide FreshSlot, MemSlot.Tied, Tally, Inv, EmptyLists, BinsUpTo;
      EmptyListsAre(cfg.numSlots);
      EmptyInv(Snap());
      forall i | 0 <= i < |memSlots|
        ensures memSlots[i].Counted(cfg.dumpInterval) && memSlots[i].Tied(blk, lists)
        ensures memSlots[i].memBins == BinsUpTo(MIN_BIN) && memSlots[i].log == []
      {
        FreshTied(memSlots[i], blk, lists, cfg, i);
      }
    }

    // ---------------------------------------------------------------- pools

    method AddNewMemPool(poolSizeReq: nat) returns (st: Status)
      requires HeapOk(NO_TILE)
      modifies this`currMemPool, this`lo, this`hi, this`pools, this`memPools, space
      ensures var goal := Reserve(old(currMemPool) + 1, PoolSize(poolSizeReq));
        Explained(st, goal, Reserves(), old(space.refusals), space.refusals)
      ensures st.Aborted? ==> old(currMemPool) == MAX_MEM_POOLS - 1
      ensures st.NoMemory? ==> HeapOk(NO_TILE) && Snap() == old(Snap()) && pools == old(pools)
      ensures st.Ok? ==> HeapOk(NO_TILE) && currMemPool == old(currMemPool) + 1 && |pools| == old(|pools|) + 1
      ensures st.Ok? ==> lo > 0 && hi - lo == PoolSize(poolSizeReq)
      ensures st.Ok? ==> (hi - lo) % 4096 == 0 && poolSizeReq < hi - lo <= poolSizeReq + 4096
      ensures st.Ok? ==> forall x | lo <= x < hi :: x !in old(space.mem)
      ensures st.Ok? ==> Snap() == Grow(old(Snap()), lo, PoolSize(poolSizeReq))
    {
      hide Inv, Laid, GoodPool, ListsOk;
      HeapInv(NO_TILE);
      var poolSize := PoolSize(poolSizeReq);
      ghost var s0 := Snap();
      var mapStart := space.Mmap(poolSize);
      if mapStart == NULL {
        return NoMemory;
      }
      GrowInv(s0, mapStart, poolSize);
      var full := OpenPool(mapStart, poolSize);
      assert !full ==> Snap() == Grow(s0, mapStart, poolSize);
      return if full then Aborted else Ok;
    }

    /** Make the mapped region the current pool, unless the table of pools is full. */
    method OpenPool(mapStart: Ptr, poolSize: nat) returns (full: bool)
      requires Shape() && PoolsOk(BinsOf(blk), NO_TILE) && NULL !in blk
      requires mapStart > 0 && mapStart % PAGE_SIZE == 0 && poolSize > 0 && poolSize % PAGE_SIZE == 0
      modifies this`currMemPool, this`lo, this`hi, this`pools, this`memPools
      ensures full <==> old(currMemPool) == MAX_MEM_POOLS - 1
      ensures full <==> currMemPool == MAX_MEM_POOLS
      ensures !full ==> PoolsOk(BinsOf(blk), NO_TILE) && currMemPool == old(currMemPool) + 1
      ensures !full ==> lo == mapStart && hi == mapStart + poolSize
    {
      currMemPool := currMemPool + 1;
      if currMemPool >= MAX_MEM_POOLS {
        return true;
      }
      OpenShows(mapStart, poolSize);
      memPools := memPools[currMemPool := MemPool(poolSize, poolSize, mapStart, mapStart, mapStart + poolSize - 1)];
      LaidOpen(pools, BinsOf(blk), spot, PoolView(mapStart, poolSize, []));
      pools := pools + [PoolView(mapStart, poolSize, [])];
      lo, hi := mapStart, mapStart + poolSize;
      return false;
    }

    lemma CurrentRoom()
      requires HeapOk(NO_TILE) && pools != []
      ensures 0 <= currMemPool < |memPools| && currMemPool < MAX_MEM_POOLS && memPools[currMemPool].remainingSizeBytes == hi - lo
    {
      hide Inv, Laid, GoodPool, ListsOk;
    }

    method GetFromPool(ghost bin: nat, size: nat) returns (st: Status, hdr: Ptr)
      requires HeapOk(NO_TILE) && pools != [] && size == Pow2(bin) && MIN_BIN <= bin
      modifies this`currMemPool, this`lo, this`hi, this`pools, this`memPools, space
      ensures Explained(st, Less(old(Reserves()), bin), Reserves(), old(space.refusals), space.refusals)
      ensures st.Aborted? ==> old(currMemPool) == MAX_MEM_POOLS - 1
      ensures st.NoMemory? ==> HeapOk(NO_TILE) && Snap() == old(Snap()) && pools == old(pools)
      ensures st.Ok? ==> RawTile(Tile(hdr, bin)) && Evolves(old(Snap()), Snap(), NULL)
      ensures st.Ok? ==> currMemPool == old(currMemPool) + (if old(hi - lo) < size + 4096 then 1 else 0)
      ensures var whole := (if size > 1048576000 then size else 1048576000) + 4096; var had := old(hi - lo);
        st.Ok? ==> hi - lo == (if had < size + 4096 then whole else had) - (size + 4096)
      ensures old(hi - lo) >= size + PAGE_SIZE ==>
        st.Ok? && pools != [] && |pools| == old(|pools|) && lo == old(lo) + size + PAGE_SIZE && hi == old(hi)
    {
      hide Inv, PoolsOk, RawExtent, Evolves, ListsOk, Shape, PoolSize, ExpandRequest, Pow2, Laid;
      Pow2Pages(bin);
      CurrentRoom();
      ghost var s0 := Snap();
      EvolvesRefl(s0);
      if memPools[currMemPool].remainingSizeBytes < size + PAGE_SIZE {
        st := AddNewMemPool(ExpandRequest(size));
        if st != Ok {
          return st, NULL;
        }
        GrowthIsEnough(size);
        NewPoolHolds(bin);
        GrowEvolves(s0, lo, hi - lo, NULL);
      }
      ghost var s1 := Snap();
      assert Evolves(s0, s1, NULL);
      hdr := CarveExtent(bin, size);
      EvolvesTrans(s0, s1, Snap(), NULL);
      st := Ok;
    }

    /** The tile just carved is the last of the current pool, and nobody's block yet. */
    ghost predicate RawTile(t: Tile)
      reads this`currMemPool, this`blk, this`lists, this`lo, this`hi, this`pools, this`spot, this`memPools, space
    {
      && HeapOk(t) && RawExtent(Snap(), t.h, Pow2(t.bin))
      && pools != [] && pools[|pools| - 1].tiles != []
      && pools[|pools| - 1].tiles[|pools[|pools| - 1].tiles| - 1] == t
    }

    method CarveExtent(ghost bin: nat, size: nat) returns (hdr: Ptr)
      requires HeapOk(NO_TILE) && pools != [] && size == Pow2(bin) && MIN_BIN <= bin && hi - lo >= size + PAGE_SIZE
      modifies this`lo, this`pools, this`memPools, space`mem, space`noAccess
      ensures RawTile(Tile(hdr, bin)) && Evolves(old(Snap()), Snap(), NULL)
      ensures |pools| == old(|pools|) && lo == old(lo) + size + PAGE_SIZE
    {
      hide Inv, RawExtent, PutWord, Laid, GoodPool;
      Pow2Pages(bin);
      ghost var s0 := Snap();
      CutFacts(s0, size);
      CutInv(s0, size);
      CutEvolves(s0, size, NULL);
      hdr := CarveCurrent(bin, size);
      space.PostGuard(hdr + size);
      assert Snap() == Cut(s0, size);
    }

    method CarveCurrent(ghost bin: nat, size: nat) returns (hdr: Ptr)
      requires Shape() && PoolsOk(BinsOf(blk), NO_TILE) && NULL !in blk && pools != []
      requires size == Pow2(bin) && size % PAGE_SIZE == 0 && hi - lo >= size + PAGE_SIZE
      modifies this`lo, this`pools, this`memPools
      ensures PoolsOk(BinsOf(blk), Tile(hdr, bin)) && |pools| == old(|pools|) && unchanged(space)
      ensures hdr == old(lo) && lo == hdr + size + PAGE_SIZE
      ensures pools[|pools| - 1].tiles == old(pools[|pools| - 1].tiles) + [Tile(hdr, bin)]
    {
      ghost var v := pools[currMemPool];
      var pool := memPools[currMemPool];
      CarveShows(pool, v, bin);
      hdr := pool.startFree;
      memPools := memPools[currMemPool := pool.(
        startFree := pool.startFree + (size + PAGE_SIZE), remainingSizeBytes := pool.remainingSizeBytes - (size + PAGE_SIZE))];
      LaidCarve(pools, BinsOf(blk), spot, v, Tile(hdr, bin));
      pools := pools[currMemPool := v.(tiles := v.tiles + [Tile(hdr, bin)])];
      lo := hdr + size + PAGE_SIZE;
    }

    /** The header stores of `replenishBin`: the raw tile becomes a block on no list. */
    method AdoptExtent(hdr: Ptr, slotNum: nat, binNum: nat)
      requires RawTile(Tile(hdr, binNum)) && MIN_BIN <= binNum < MAX_ALLOC_POWER
      modifies this`blk, this`spot, space`mem
      ensures HeapOk(NO_TILE) && hdr !in old(blk) && Reachable(space.noAccess, hdr, Pow2(binNum))
      ensures Snap() == Adopt(old(Snap()), hdr, slotNum, binNum)
    {
      hide Inv, Laid, GoodPool, ListsOk, RawExtent, OverlayHdr;
      ghost var s0 := Snap();
      AdoptInv(s0, hdr, slotNum, binNum);
      WriteFirstHdr(hdr, slotNum, binNum);
      LaidAdopt(pools, BinsOf(blk), spot, Tile(hdr, binNum));
      spot := spot[hdr := (|pools| - 1, |pools[|pools| - 1].tiles| - 1)];
      assert BinsOf(blk[hdr := Block(slotNum, binNum, Loose, NULL, 0)]) == BinsOf(blk)[hdr := binNum];
      blk := blk[hdr := Block(slotNum, binNum, Loose, NULL, 0)];
    }

    method WriteFirstHdr(hdr: Ptr, slotNum: nat, binNum: nat)
      requires space.Valid() && RawExtent(Snap(), hdr, Pow2(binNum)) && MIN_BIN <= binNum
      modifies space`mem
      ensures space.Valid()
      ensures space.mem == OverlayHdr(old(space.mem), hdr, ZERO_HDR.(slotNum := slotNum, binNum := binNum, magic := MAGIC_FREE))
    {
      hide IsFilled, OverlayHdr, PutHdr, RawExtent, IsHdr;
      RawUsable(Snap(), hdr, binNum);
      ghost var m, h0, h1 := space.mem, ZERO_HDR.(slotNum := slotNum), ZERO_HDR.(slotNum := slotNum, binNum := binNum);
      Overlaid(m, hdr, h0, h1);
      space.StoreFirstHdr(hdr, ZERO_HDR.(slotNum := slotNum));
      space.StoreHdr(hdr, space.LoadHdr(hdr).(binNum := binNum));
      Overlaid(m, hdr, h1, h1.(magic := MAGIC_FREE));
      space.StoreHdr(hdr, space.LoadHdr(hdr).(magic := MAGIC_FREE));
    }

    /** `insertElmHead(&head, hdr)` on the list l headed by `head`. */
    method Push(ghost l: ListId, head: Ptr, hdr: Ptr, ghost own: Owner) returns (newHead: Ptr)
      requires HeapOk(NO_TILE) && l in lists && !l.DelayRing? && head == First(lists[l])
      requires hdr in blk && blk[hdr].own.Loose? && (own.Avail? || own.Taken?) && Home(blk[hdr].(own := own)) == l
      requires Reachable(space.noAccess, hdr, Pow2(blk[hdr].bin))
      modifies this`blk, this`lists, space`mem
      ensures HeapOk(NO_TILE) && newHead == hdr
      ensures Snap() == Attach(old(Snap()), l, hdr, own)
    {
      hide Inv, PoolsOk, LinkFront;
      ghost var s0 := Snap();
      AttachInv(s0, l, hdr, own);
      BlockReady(s0, hdr);
      ListFacts(s0, l);
      ListReady(s0, l);
      newHead := InsertElmHead(space, head, hdr, lists[l]);
      SameBins(blk, hdr, own);
      lists := lists[l := [hdr] + lists[l]];
      blk := Reown(blk, hdr, own);
    }

    /** `rmElm(&head, hdr)` on the list l headed by `head`, of which hdr is the k-th element. */
    method Remove(ghost l: ListId, head: Ptr, hdr: Ptr, ghost k: nat) returns (newHead: Ptr)
      requires HeapOk(NO_TILE) && l in lists && !l.DelayRing? && head == First(lists[l])
      requires k < |lists[l]| && lists[l][k] == hdr && hdr in blk && !blk[hdr].own.Used?
      modifies this`blk, this`lists, space`mem
      ensures HeapOk(NO_TILE) && newHead == First(ListAt(lists, l))
      ensures Snap() == Detach(old(Snap()), l, k, hdr)
      ensures old(Home(blk[hdr])) == l && Reachable(space.noAccess, hdr, Pow2(blk[hdr].bin))
    {
      hide Inv, PoolsOk, Unlink;
      ghost var s0 := Snap();
      DetachInv(s0, l, k, hdr);
      BlockFacts(s0, hdr);
      ListFacts(s0, l);
      ListReady(s0, l);
      newHead := RmElm(space, head, hdr, lists[l], k);
      SameBins(blk, hdr, Loose);
      lists := lists[l := Minus(lists[l], k)];
      blk := Reown(blk, hdr, Loose);
    }

    ghost predicate IsSlot(slot: MemSlot) {
      slot.num < |memSlots| && memSlots[slot.num] == slot
    }

    /** `insertElmHead(&bin->headFree, hdr); bin->numFree++`. */
    method PushFree(slot: MemSlot, binNum: nat, hdr: Ptr)
      requires HeapOk(NO_TILE) && IsSlot(slot) && binNum < MAX_ALLOC_POWER && |slot.memBins| == MAX_ALLOC_POWER
      requires FreeTie(lists, slot.num, binNum, slot.memBins[binNum])
      requires hdr in blk && blk[hdr].own.Loose? && blk[hdr].slot == slot.num && blk[hdr].bin == binNum
      requires Reachable(space.noAccess, hdr, Pow2(binNum))
      modifies this`blk, this`lists, space`mem, slot`memBins
      ensures HeapOk(NO_TILE)
      ensures Snap() == Attach(old(Snap()), FreeList(slot.num, binNum), hdr, Avail)
      ensures slot.memBins == old(slot.memBins)[binNum :=
        old(slot.memBins[binNum]).(headFree := hdr, numFree := old(slot.memBins[binNum].numFree) + 1)]
      ensures FreeTie(lists, slot.num, binNum, slot.memBins[binNum])
    {
      hide Inv, PoolsOk, LinkFront;
      var bin := slot.memBins[binNum];
      var head := Push(FreeList(slot.num, binNum), bin.headFree, hdr, Avail);
      slot.memBins := slot.memBins[binNum := bin.(headFree := head, numFree := bin.numFree + 1)];
    }

    /** One round of the loop of `replenishBin`: carve a block and put it on the free list. */
    method CarveOne(slot: MemSlot, binNum: nat) returns (st: Status)
      requires HeapOk(NO_TILE) && pools != [] && IsSlot(slot) && MIN_BIN <= binNum < MAX_ALLOC_POWER
      requires |slot.memBins| == MAX_ALLOC_POWER && FreeTie(lists, slot.num, binNum, slot.memBins[binNum])
      modifies this`currMemPool, this`lo, this`hi, this`pools, this`memPools, this`blk, this`lists, this`spot,
               space, slot`memBins
      ensures Explained(st, Less(old(Reserves()), binNum), Reserves(), old(space.refusals), space.refusals)
      ensures st.Aborted? ==> old(currMemPool) == MAX_MEM_POOLS - 1
      ensures st.NoMemory? ==> HeapOk(NO_TILE) && Snap() == old(Snap()) && pools == old(pools) && slot.memBins == old(slot.memBins)
      ensures st.Ok? ==> HeapOk(NO_TILE) && pools != [] && Evolves(old(Snap()), Snap(), NULL)
      ensures st.Ok? ==> exists h :: Carved(old(Snap()), Snap(), FreeList(slot.num, binNum), h)
      ensures st.Ok? ==> |slot.memBins| == MAX_ALLOC_POWER && FreeTie(lists, slot.num, binNum, slot.memBins[binNum])
      ensures st.Ok? ==> slot.memBins[binNum].numFree == old(slot.memBins[binNum].numFree) + 1
      ensures st.Ok? ==> slot.memBins == old(slot.memBins)[binNum :=
        old(slot.memBins[binNum]).(headFree := slot.memBins[binNum].headFree, numFree := slot.memBins[binNum].numFree)]
      ensures old(hi - lo) >= Pow2(binNum) + PAGE_SIZE ==>
        st.Ok? && |pools| == old(|pools|) && lo == old(lo) + Pow2(binNum) + PAGE_SIZE && hi == old(hi)
    {
      hide Inv, PoolsOk, RawExtent, Evolves, Reachable, Shape, ListsOk, Explained, Less, GrowSize, FreeTie;
      ghost var s0 := Snap();
      var hdr;
      st, hdr := GetFromPool(binNum, Pow2(binNum));
      if st != Ok {
        return;
      }
      ghost var s1 := Snap();
      StockExtent(slot, binNum, hdr);
      EvolvesTrans(s0, s1, Snap(), NULL);
      assert Carved(s0, Snap(), FreeList(slot.num, binNum), hdr);
    }

    /** The rest of that round: the extent just carved becomes a block on the free list. */
    method StockExtent(slot: MemSlot, binNum: nat, hdr: Ptr)
      requires RawTile(Tile(hdr, binNum)) && IsSlot(slot) && MIN_BIN <= binNum < MAX_ALLOC_POWER
      requires |slot.memBins| == MAX_ALLOC_POWER && FreeTie(lists, slot.num, binNum, slot.memBins[binNum])
      modifies this`blk, this`lists, this`spot, space`mem, slot`memBins
      ensures HeapOk(NO_TILE) && Evolves(old(Snap()), Snap(), NULL)
      ensures Carved(old(Snap()), Snap(), FreeList(slot.num, binNum), hdr)
      ensures |slot.memBins| == MAX_ALLOC_POWER && FreeTie(lists, slot.num, binNum, slot.memBins[binNum])
      ensures slot.memBins == old(slot.memBins)[binNum :=
        old(slot.memBins[binNum]).(headFree := hdr, numFree := old(slot.memBins[binNum].numFree) + 1)]
    {
      hide Inv, PoolsOk, RawExtent, Evolves, LinkFront, OverlayHdr, Reachable, Shape, ListsOk;
      ghost var s1 := Snap();
      AdoptEvolves(s1, hdr, slot.num, binNum, NULL);
      AdoptExtent(hdr, slot.num, binNum);
      ghost var s2 := Snap();
      AttachEvolves(s2, FreeList(slot.num, binNum), hdr, Avail, NULL);
      PushFree(slot, binNum, hdr);
      EvolvesTrans(s1, s2, Snap(), NULL);
      AdoptThenAttach(s1, hdr, slot.num, binNum);
    }

    lemma BinReplenishes(slot: MemSlot, b: nat)
      requires HeapOk(NO_TILE) && b < |slot.memBins| && FreeTie(lists, slot.num, b, slot.memBins[b])
      ensures b >= MIN_BIN ==> Replenished(slot.memBins[b], RefillTarget(b, slot.memBins[b]))
    {
      hide Inv, PoolsOk, Replenished, RefillTarget, Shape, ListsOk;
      InvOwned(Snap());
      ListFacts(Snap(), FreeList(slot.num, b));
      if b >= MIN_BIN {
        TargetReplenishes(lists, slot.num, b, slot.memBins[b]);
      }
    }

    /** Refill a bin that is empty or below its low-water mark, up to its high-water mark. */
    method ReplenishBin(slot: MemSlot, binNum: nat) returns (st: Status)
      requires HeapOk(NO_TILE) && pools != [] && IsSlot(slot) && binNum < MAX_ALLOC_POWER
      requires |slot.memBins| == MAX_ALLOC_POWER && FreeTie(lists, slot.num, binNum, slot.memBins[binNum])
      modifies this`currMemPool, this`lo, this`hi, this`pools, this`memPools, this`blk, this`lists, this`spot,
               space, slot`memBins
      ensures var goal := Refilling(old(Reserves()), old(slot.memBins), binNum);
        Explained(st, goal, Reserves(), old(space.refusals), space.refusals)
      ensures !st.Aborted? ==> HeapOk(NO_TILE) && pools != [] && Evolves(old(Snap()), Snap(), NULL)
      ensures !st.Aborted? ==> Refilled(old(Snap()), Snap(), FreeList(slot.num, binNum))
      ensures !st.Aborted? ==> |slot.memBins| == MAX_ALLOC_POWER && FreeTie(lists, slot.num, binNum, slot.memBins[binNum])
      ensures !st.Aborted? ==> slot.memBins == old(slot.memBins)[binNum :=
        old(slot.memBins[binNum]).(headFree := slot.memBins[binNum].headFree, numFree := slot.memBins[binNum].numFree)]
      ensures st.Ok? ==> slot.memBins[binNum].numFree == RefillTarget(binNum, old(slot.memBins[binNum]))
      ensures !st.Aborted? ==> slot.memBins[binNum].numFree >= old(slot.memBins[binNum].numFree)
      ensures binNum >= 12 && st.Ok? ==> Replenished(old(slot.memBins[binNum]), slot.memBins[binNum].numFree)
      ensures st.Ok? && slot.memBins[binNum].numFree == old(slot.memBins[binNum].numFree) ==> Snap() == old(Snap())
      ensures st.Ok? && slot.memBins[binNum].numFree == old(slot.memBins[binNum].numFree) ==> Reserves() == old(Reserves())
      ensures var cost := CostOf(old(slot.memBins), binNum);
        old(hi - lo) >= cost ==> st.Ok? && |pools| == old(|pools|) && hi == old(hi) && lo == old(lo) + cost
    {
      hide Inv, PoolsOk, Evolves, Shape, ListsOk, Refilled, Carved, Times, Less, GrowSize, Explained, FreeTie, Replenished;
      BinReplenishes(slot, binNum);
      ghost var r0 := Reserves();
      st := Ok;
      PoolLeft(NO_TILE);
      ExplainedStart(r0, space.refusals);
      EvolvesRefl(Snap());
      FreeTieThere(lists, slot.num, binNum, slot.memBins[binNum]);
      RefilledRefl(Snap(), FreeList(slot.num, binNum));
      TimesZero(Pow2(binNum) + PAGE_SIZE);
      SmallBins(binNum);
      if Pow2(binNum) < PAGE_SIZE {
        return;
      }
      var bin := slot.memBins[binNum];
      if bin.headFree == NULL || bin.numFree < bin.lowWater {
        ghost var c := 0;
        ghost var e := Pow2(binNum) + PAGE_SIZE;
        ghost var l := FreeList(slot.num, binNum);
        ghost var need := RefillTarget(binNum, bin) - bin.numFree;
        TimesZero(e);
        while true
          invariant Reserves() == After(r0, binNum, c)
          invariant Explained(Ok, Reserves(), Reserves(), old(space.refusals), space.refusals)
          invariant st == Ok && HeapOk(NO_TILE) && pools != [] && Evolves(old(Snap()), Snap(), NULL)
          invariant Refilled(old(Snap()), Snap(), l)
          invariant |slot.memBins| == MAX_ALLOC_POWER && FreeTie(lists, slot.num, binNum, slot.memBins[binNum])
          invariant slot.memBins == old(slot.memBins)[binNum :=
            bin.(headFree := slot.memBins[binNum].headFree, numFree := slot.memBins[binNum].numFree)]
          invariant slot.memBins[binNum].numFree == bin.numFree + c && (c > 0 ==> bin.numFree + c < bin.highWater)
          invariant old(hi - lo) >= Times(need, e) ==> |pools| == old(|pools|) && hi == old(hi) && lo == old(lo) + Times(c, e)
          decreases if bin.highWater > slot.memBins[binNum].numFree then bin.highWater - slot.memBins[binNum].numFree else 0
        {
          ghost var s1, r1, refused1 := Snap(), Reserves(), space.refusals;
          st := CarveOne(slot, binNum);
          MulStep(c, e);
          MulMono(c + 1, need, e);
          AfterBounds(r0, binNum, c + 1, need);
          ExplainedThen(st, r1, After(r0, binNum, c + 1), After(r0, binNum, need), Reserves(),
                        old(space.refusals), refused1, space.refusals);
          if st != Ok {
            return;
          }
          ghost var h :| Carved(s1, Snap(), l, h);
          RefilledStep(old(Snap()), s1, Snap(), l, h);
          EvolvesTrans(old(Snap()), s1, Snap(), NULL);
          c := c + 1;
          if slot.memBins[binNum].numFree >= slot.memBins[binNum].highWater {
            break;
          }
        }
      }
    }

    // ---------------------------------------------------------------- getBuf

    /** Slots other than one keep their ties when nothing of theirs changes. */
    lemma SlotsKept(s: State, slot: MemSlot)
      requires Inv(s) && Shape() && IsSlot(slot) && OtherSlotsSame(s, Snap(), slot.num)
      requires forall m | m in memSlots && m != slot :: m.Counted(cfg.dumpInterval) && m.Tied(s.blk, s.lists)
      requires slot.Counted(cfg.dumpInterval) && slot.Tied(blk, lists)
      ensures SlotsOk()
    {
      hide Inv, Tally, MemSlot.Tied, SlotSame;
      InvOwned(s);
      forall i | 0 <= i < |memSlots| ensures memSlots[i].Counted(cfg.dumpInterval) && memSlots[i].Tied(blk, lists) {
        var m := memSlots[i];
        assert m in memSlots && m.num == i;
        if m != slot {
          TiedKept(m, s, Snap());
        }
      }
    }

    lemma SlotBins(slot: MemSlot)
      requires SlotsOk() && IsSlot(slot)
      ensures |slot.memBins| == MAX_ALLOC_POWER
    {
      assert memSlots[slot.num].Tied(blk, lists);
    }

    /** The refill inside `getBuf`. */
    method Refill(slot: MemSlot, binNum: nat) returns (st: Status)
      requires Valid() && pools != [] && IsSlot(slot) && binNum < MAX_ALLOC_POWER && |slot.memBins| == MAX_ALLOC_POWER
      modifies this`currMemPool, this`lo, this`hi, this`pools, this`memPools, this`blk, this`lists, this`spot,
               space, slot`memBins
      ensures var goal := Refilling(old(Reserves()), old(slot.memBins), binNum);
        Explained(st, goal, Reserves(), old(space.refusals), space.refusals)
      ensures !st.Aborted? ==> Valid() && pools != [] && Evolves(old(Snap()), Snap(), NULL)
      ensures !st.Aborted? ==> Refilled(old(Snap()), Snap(), FreeList(slot.num, binNum))
      ensures st.Ok? && binNum >= MIN_BIN ==> FreeList(slot.num, binNum) in lists && lists[FreeList(slot.num, binNum)] != []
      ensures !st.Aborted? ==> |slot.memBins| == MAX_ALLOC_POWER && slot.memBins == old(slot.memBins)[binNum :=
        old(slot.memBins[binNum]).(headFree := slot.memBins[binNum].headFree, numFree := slot.memBins[binNum].numFree)]
      ensures st.Ok? ==> slot.memBins[binNum].numFree == RefillTarget(binNum, old(slot.memBins[binNum]))
      ensures !st.Aborted? ==> slot.memBins[binNum].numFree >= old(slot.memBins[binNum].numFree)
      ensures binNum >= 12 && st.Ok? ==> Replenished(old(slot.memBins[binNum]), slot.memBins[binNum].numFree)
      ensures st.Ok? && slot.memBins[binNum].numFree == old(slot.memBins[binNum].numFree) ==> Snap() == old(Snap())
      ensures st.Ok? && slot.memBins[binNum].numFree == old(slot.memBins[binNum].numFree) ==> Reserves() == old(Reserves())
      ensures var cost := CostOf(old(slot.memBins), binNum);
        old(hi - lo) >= cost ==> st.Ok? && |pools| == old(|pools|) && hi == old(hi) && lo == old(lo) + cost
    {
      hide Inv, PoolsOk, Evolves, Refilled, Tally, MemSlot.OnSchedule, AllTies, MemFreeDelay.Valid;
      hide MemFreeDelay.Contents, Explained, Refilling, RefillTarget, CostOf, ListsOk;
      ghost var s0 := Snap();
      ghost var l := FreeList(slot.num, binNum);
      ghost var bins0 := slot.memBins;
      assert memSlots[slot.num].Tied(blk, lists);
      BinFacts(slot, blk, lists, binNum);
      if binNum >= MIN_BIN {
        RefillLeaves(lists, slot.num, binNum, slot.memBins[binNum]);
      }
      st := ReplenishBin(slot, binNum);
      if st == Aborted {
        return;
      }
      RefilledSame(s0, Snap(), l);
      InvOwned(s0);
      RefillTies(s0, Snap(), slot.num, binNum, bins0, slot.memBins, slot.log, slot.delay.Contents(), slot.delay.bins);
      SlotsKept(s0, slot);
    }

    // ---------------------------------------------------------------- initialization

    ghost predicate AllAvail()
      reads this`blk
    {
      forall x | x in blk :: blk[x].own.Avail?
    }

    /** A constructed allocator that has not been used. */
    ghost predicate Virgin()
      reads this, space, memSlots, Rings(), Arrays()
    {
      && Valid() && !isInit && pools == [] && AllAvail()
      && forall i | 0 <= i < |memSlots| :: memSlots[i].memBins == BinsUpTo(MIN_BIN) && memSlots[i].log == []
    }

    /** Set the water marks of one slot's small bins; returns what filling them will take. */
    method InitSlotMeta(slot: MemSlot) returns (size: nat)
      requires Valid() && IsSlot(slot) && slot.memBins == BinsUpTo(MIN_BIN)
      modifies slot`memBins
      ensures Valid() && size == StockCost(MAX_PREALLOC_POWER) && slot.memBins == BinsUpTo(MAX_PREALLOC_POWER)
    {
      hide Inv, PoolsOk, Tally, AllTies, MemSlot.OnSchedule, StockCost;
      ghost var s, bins0 := Snap(), slot.memBins;
      assert memSlots[slot.num].Tied(blk, lists);
      size := 0;
      StockCostZero();
      var bins := slot.memBins;
      for binNum := MIN_BIN to MAX_PREALLOC_POWER
        invariant size == StockCost(binNum) && bins == BinsUpTo(binNum)
      {
        StockCostStep(binNum);
        size := size + bins[binNum].(highWater := 200).highWater * (Pow2(binNum) + PAGE_SIZE);
        bins := bins[binNum := bins[binNum].(lowWater := 100, highWater := 200)];
      }
      slot.memBins := bins;
      MarksIgnored(blk, lists, slot.num, bins0, bins, slot.log, slot.delay.Contents(), slot.delay.bins);
      SlotsKept(s, slot);
    }

    /** `initBinsMeta`. */
    method InitBinsMeta() returns (initSize: nat)
      requires Virgin()
      modifies memSlots`memBins
      ensures Valid() && initSize == Times(cfg.numSlots, StockCost(MAX_PREALLOC_POWER))
      ensures forall i | 0 <= i < |memSlots| :: memSlots[i].memBins == BinsUpTo(MAX_PREALLOC_POWER)
    {
      hide Inv, PoolsOk, SlotsOk, StockCost, BinsUpTo, Times;
      initSize := 0;
      TimesZero(StockCost(MAX_PREALLOC_POWER));
      for i := 0 to |memSlots|
        invariant Valid() && initSize == Times(i, StockCost(MAX_PREALLOC_POWER))
        invariant forall j | 0 <= j < i :: memSlots[j].memBins == BinsUpTo(MAX_PREALLOC_POWER)
        invariant forall j | i <= j < |memSlots| :: memSlots[j].memBins == BinsUpTo(MIN_BIN)
      {
        var size := InitSlotMeta(memSlots[i]);
        MulStep(i, StockCost(MAX_PREALLOC_POWER));
        initSize := initSize + size;
      }
    }

    /** `replenishBins`: it stops at the first bin the kernel has no memory for. */
    method ReplenishBins(slot: MemSlot) returns (st: Status)
      requires Valid() && pools != [] && IsSlot(slot)
      modifies this`currMemPool, this`lo, this`hi, this`pools, this`memPools, this`blk, this`lists, this`spot,
               space, slot`memBins
      ensures var goal := RefillingUpTo(old(Reserves()), old(slot.memBins), MAX_PREALLOC_POWER);
        Explained(st, goal, Reserves(), old(space.refusals), space.refusals)
      ensures !st.Aborted? ==> Valid() && pools != [] && Evolves(old(Snap()), Snap(), NULL) && Stocks(old(blk), blk)
      ensures st.Ok? ==> Topped(old(slot.memBins), slot.memBins, MAX_PREALLOC_POWER)
      ensures var cost := CostUpTo(old(slot.memBins), MAX_PREALLOC_POWER);
        old(hi - lo) >= cost ==> st.Ok? && |pools| == old(|pools|) && hi == old(hi) && lo == old(lo) + cost
    {
      hide Inv, PoolsOk, SlotsOk, Shape, ListsOk, Evolves, Refilled, FreeTies, CostOf, RefillTarget, Stocks, Blocks, After;
      hide Topped, Explained;
      ghost var s0, bins0, r0 := Snap(), slot.memBins, Reserves();
      ghost var cost := CostUpTo(bins0, MAX_PREALLOC_POWER);
      st := Ok;
      PoolLeft(NO_TILE);
      ExplainedStart(r0, space.refusals);
      SlotBins(slot);
      EvolvesRefl(s0);
      StocksRefl(blk);
      ToppedNone(bins0);
      for binNum := 0 to MAX_PREALLOC_POWER
        invariant Reserves() == RefillingUpTo(r0, bins0, binNum)
        invariant Explained(Ok, Reserves(), Reserves(), old(space.refusals), space.refusals)
        invariant st.Ok? && Valid() && pools != [] && Evolves(s0, Snap(), NULL) && Stocks(s0.blk, blk)
        invariant Topped(bins0, slot.memBins, binNum)
        invariant old(hi - lo) >= cost ==>
          |pools| == old(|pools|) && hi == old(hi) && lo == old(lo) + CostUpTo(bins0, binNum)
      {
        ghost var s1 := Snap();
        CostMono(bins0, binNum + 1, MAX_PREALLOC_POWER);
        CostAt(bins0, slot.memBins, binNum);
        RefillingMono(r0, bins0, binNum + 1, MAX_PREALLOC_POWER);
        ghost var r1, bins1, refused1 := Reserves(), slot.memBins, space.refusals;
        st := Refill(slot, binNum);
        ExplainedThen(st, r1, RefillingUpTo(r0, bins0, binNum + 1), RefillingUpTo(r0, bins0, MAX_PREALLOC_POWER), Reserves(),
                      old(space.refusals), refused1, space.refusals);
        if st == Aborted {
          return;
        }
        EvolvesTrans(s0, s1, Snap(), NULL);
        RefilledStocks(s1, Snap(), FreeList(slot.num, binNum));
        StocksTrans(s0.blk, s1.blk, blk);
        if st != Ok {
          return;
        }
        ToppedStep(bins0, bins1, slot.memBins, binNum);
      }
    }

    /** `replenishSlots`: what `replenishBins` returns is not looked at. */
    method ReplenishSlots() returns (st: Status)
      requires Valid() && pools != []
      modifies this`currMemPool, this`lo, this`hi, this`pools, this`memPools, this`blk, this`lists, this`spot,
               space, memSlots`memBins
      ensures st.Ok? || st.Aborted?
      ensures st.Aborted? <==> currMemPool == MAX_MEM_POOLS
      ensures currMemPool <= old(currMemPool) + BlocksOfAll(old(AllBins())) && old(space.refusals) <= space.refusals
      ensures var goal := RefillingAll(old(Reserves()), old(AllBins()));
        space.refusals == old(space.refusals) ==>
          (st.Aborted? <==> goal.last >= MAX_MEM_POOLS) && (st.Ok? ==> Reserves() == goal)
      ensures st.Ok? ==> Valid() && pools != [] && Evolves(old(Snap()), Snap(), NULL) && Stocks(old(blk), blk)
      ensures st.Ok? && space.refusals == old(space.refusals) ==>
        forall i | 0 <= i < |memSlots| :: Topped(old(memSlots[i].memBins), memSlots[i].memBins, MAX_PREALLOC_POWER)
      ensures var cost := CostOfAll(old(AllBins()));
        old(hi - lo) >= cost ==>
          st.Ok? && space.refusals == old(space.refusals) && |pools| == old(|pools|)
          && hi == old(hi) && lo == old(lo) + cost
    {
      hide Inv, PoolsOk, SlotsOk, ListsOk, Evolves, Stocks, Topped, CostUpTo, RefillingUpTo, RefillingAll, BlocksOfAll, Explained;
      hide RefilledSoFar, CostOfAll;
      ghost var s0, all, r0 := Snap(), AllBins(), Reserves();
      ghost var cost := CostOfAll(all);
      st := Ok;
      PoolLeft(NO_TILE);
      EvolvesRefl(s0);
      StocksRefl(blk);
      assert all[..|memSlots|] == all && all[..0] == [];
      RefilledStart(r0, all, space.refusals);
      for i := 0 to |memSlots|
        invariant currMemPool < MAX_MEM_POOLS && RefilledSoFar(r0, all, i, Reserves(), old(space.refusals), space.refusals)
        invariant st.Ok? && Valid() && pools != [] && Evolves(s0, Snap(), NULL) && Stocks(s0.blk, blk)
        invariant space.refusals == old(space.refusals) ==>
          forall j | 0 <= j < i :: Topped(all[j], memSlots[j].memBins, MAX_PREALLOC_POWER)
        invariant forall j | i <= j < |memSlots| :: memSlots[j].memBins == all[j]
        invariant old(hi - lo) >= cost ==>
          space.refusals == old(space.refusals) && |pools| == old(|pools|)
          && hi == old(hi) && lo == old(lo) + CostOfAll(all[..i])
      {
        ghost var s1, r1, refused1 := Snap(), Reserves(), space.refusals;
        AllCostStep(all, i);
        AllCostMono(all, i + 1);
        var ret := ReplenishBins(memSlots[i]);
        RefilledNext(ret, r0, all, i, r1, Reserves(), old(space.refusals), refused1, space.refusals);
        if ret == Aborted {
          return Aborted;
        }
        EvolvesTrans(s0, s1, Snap(), NULL) by { assert Inv(s0); }
        StocksTrans(s0.blk, s1.blk, blk);
      }
      RefilledMeans(r0, all, |all|, Reserves(), old(space.refusals), space.refusals);
    }

    ghost function AllBins(): (all: seq<seq<MemBin>>)
      reads memSlots
      ensures |all| == |memSlots| && forall i | 0 <= i < |all| :: all[i] == memSlots[i].memBins
    {
      seq(|memSlots|, i requires 0 <= i < |memSlots| reads memSlots => memSlots[i].memBins)
    }

    /** The first backing pool: not getting it is fatal. */
    method FirstPool(initSize: nat) returns (st: Status)
      requires Valid()
      modifies this`currMemPool, this`lo, this`hi, this`pools, this`memPools, space
      ensures st.Ok? ==> Valid() && |pools| == old(|pools|) + 1 && hi - lo == PoolSize(initSize) && blk == old(blk)
      ensures st.Ok? ==> space.refusals == old(space.refusals)
      ensures !st.Ok? ==> st.Aborted?
      ensures st.Aborted? ==> space.refusals == old(space.refusals) + 1 || old(currMemPool) == MAX_MEM_POOLS - 1
    {
      hide Inv, PoolsOk, Tally, MemSlot.Tied, Grow, PoolSize;
      st := AddNewMemPool(initSize);
      if st != Ok {
        st := Aborted;
      }
    }

    lemma NoPoolYet()
      requires HeapOk(NO_TILE) && pools == []
      ensures currMemPool == -1
    {
    }

    /** The library constructor.  It aborts exactly if the kernel refuses the first pool. */
    method Initialize() returns (st: Status)
      requires Virgin() || Calm()
      modifies this`isInit, this`currMemPool, this`lo, this`hi, this`pools, this`memPools, this`blk,
               this`lists, this`spot, space, memSlots
      ensures st.Ok? || st.Aborted?
      ensures st.Aborted? <==> space.refusals == old(space.refusals) + 1
      ensures st.Ok? <==> space.refusals == old(space.refusals)
      ensures st.Ok? ==> Calm()
      ensures old(isInit) ==> Snap() == old(Snap())
      ensures st.Ok? && old(Virgin()) ==> |pools| == 1 && AllAvail()
      ensures st.Ok? && old(Virgin()) ==> forall i | 0 <= i < |memSlots| :: Stocked(memSlots[i].memBins)
      ensures st.Ok? && old(Virgin()) ==> hi - lo == Times(cfg.numSlots, StockCost(MAX_PREALLOC_POWER)) + PAGE_SIZE
      ensures st.Ok? && old(Virgin()) ==> forall i | 0 <= i < |memSlots| :: FirstStock(memSlots[i].memBins)
      ensures st.Ok? && old(Virgin()) ==> hi - lo == cfg.numSlots * 56524800 + 4096
      ensures Logs() == old(Logs())
    {
      hide Inv, PoolsOk, SlotsOk, ListsOk, StockCost, BinsUpTo, Times, Stocked, Topped, Stocks, PoolSize, Evolves;
      hide FirstStock, InStock;
      if isInit {
        return Ok;
      }
      NoPoolYet();
      ghost var n := cfg.numSlots;
      var initSize := InitBinsMeta();
      st := FirstPool(START_POOL_MULT * initSize);
      if st != Ok {
        return;
      }
      SpareIsHalf(n);
      FirstCost(n);
      StockUp();
    }

    /** The first `replenishSlots`: the first pool has room for everything. */
    method StockUp()
      requires Valid() && pools != [] && AllAvail()
      requires forall i | 0 <= i < |memSlots| :: memSlots[i].memBins == BinsUpTo(MAX_PREALLOC_POWER)
      requires hi - lo >= Times(cfg.numSlots, StockCost(MAX_PREALLOC_POWER))
      modifies this`isInit, this`currMemPool, this`lo, this`hi, this`pools, this`memPools, this`blk,
               this`lists, this`spot, space, memSlots`memBins
      ensures Calm() && AllAvail() && |pools| == old(|pools|) && space.refusals == old(space.refusals)
      ensures hi - lo == old(hi - lo) - Times(cfg.numSlots, StockCost(MAX_PREALLOC_POWER))
      ensures forall i | 0 <= i < |memSlots| :: Stocked(memSlots[i].memBins) && FirstStock(memSlots[i].memBins)
    {
      hide Inv, PoolsOk, SlotsOk, ListsOk, StockCost, BinsUpTo, Times, Stocked, Topped, Stocks, PoolSize, Evolves;
      hide RefillingAll, BlocksOfAll, CostOfAll, FirstStock, InStock, Settled;
      ghost var blk0 := blk;
      PrimedCost(AllBins());
      var st := ReplenishSlots();
      PrimedStock();
      StocksAvail(blk0, blk);
      SetInit();
    }

    lemma PrimedStock()
      ensures forall i | 0 <= i < |memSlots| && Topped(BinsUpTo(MAX_PREALLOC_POWER), memSlots[i].memBins, MAX_PREALLOC_POWER) ::
        Stocked(memSlots[i].memBins) && FirstStock(memSlots[i].memBins)
    {
      hide Stocked, Topped, FirstStock, InStock;
      forall i | 0 <= i < |memSlots| && Topped(BinsUpTo(MAX_PREALLOC_POWER), memSlots[i].memBins, MAX_PREALLOC_POWER)
        ensures Stocked(memSlots[i].memBins) && FirstStock(memSlots[i].memBins)
      {
        ToppedStocks(memSlots[i].memBins);
        StockedIn(memSlots[i].memBins);
      }
    }

    method SetInit()
      requires Valid() && pools != [] && AllAvail() && forall i | 0 <= i < |memSlots| :: Stocked(memSlots[i].memBins)
      modifies this`isInit
      ensures Calm()
    {
      hide Inv, PoolsOk, Tally, MemSlot.Tied, Stocked, InStock;
      forall i | 0 <= i < |memSlots| ensures InStock(memSlots[i].memBins) {
        StockedIn(memSlots[i].memBins);
      }
      isInit := true;
    }

    /** The list move of `getBuf`: the first free block goes to the front of the in-use list. */
    method MoveToUsed(ghost i: nat, ghost b: nat, headFree: Ptr, headInUse: Ptr, ghost usrSize: nat) returns (newFree: Ptr, newInUse: Ptr)
      requires HeapOk(NO_TILE) && FreeList(i, b) in lists && UsedList(i, b) in lists && lists[FreeList(i, b)] != []
      requires headFree == First(lists[FreeList(i, b)]) && headInUse == First(lists[UsedList(i, b)])
      modifies this`blk, this`lists, space`mem
      ensures HeapOk(NO_TILE) && Took(old(Snap()), Snap(), i, b, headFree, usrSize)
      ensures Evolves(old(Snap()), Snap(), headFree)
      ensures newFree == First(Without(old(lists[FreeList(i, b)]), 0)) && newInUse == headFree
    {
      hide Inv, PoolsOk, Evolves, Unlink, LinkFront, Reachable, Shape, ListsOk;
      ghost var s0 := Snap();
      ghost var f, u := FreeList(i, b), UsedList(i, b);
      var hdr := headFree;
      ListReady(s0, f);
      DetachEvolves(s0, f, 0, hdr);
      newFree := Remove(f, headFree, hdr, 0);
      ghost var s1 := Snap();
      AttachEvolves(s1, u, hdr, Taken, hdr);
      newInUse := Push(u, headInUse, hdr, Taken);
      ghost var s2 := Snap();
      EvolvesTrans(s0, s1, s2, hdr);
      SetSize(hdr, usrSize);
      EvolvesTrans(s0, s2, Snap(), hdr);
    }

    /** From here on the block counts as usrSize bytes in use. */
    ghost method SetSize(hdr: Ptr, usrSize: nat)
      requires HeapOk(NO_TILE) && hdr in blk && blk[hdr].own.Taken?
      modifies this`blk
      ensures HeapOk(NO_TILE) && blk == old(blk)[hdr := old(blk)[hdr].(size := usrSize)]
      ensures Evolves(old(Snap()), Snap(), hdr)
    {
      hide Inv, PoolsOk, Evolves;
      ResizeInv(Snap(), hdr, usrSize);
      RewriteEvolves(Snap(), space.mem, hdr, blk[hdr].(size := usrSize)) by { InvGood(Snap()); }
      assert BinsOf(blk[hdr := blk[hdr].(size := usrSize)]) == BinsOf(blk);
      blk := blk[hdr := blk[hdr].(size := usrSize)];
    }

    /** The list move of `getBuf`, with its counting. */
    method TakeFirst(slot: MemSlot, binNum: nat, usrSize: nat) returns (hdr: Ptr)
      requires Valid() && IsSlot(slot) && binNum < MAX_ALLOC_POWER
      requires FreeList(slot.num, binNum) in lists && lists[FreeList(slot.num, binNum)] != []
      requires L.Servable(usrSize) && SizeBin(usrSize) <= binNum
      modifies this`blk, this`lists, space`mem, slot
      ensures Valid() && hdr == old(lists[FreeList(slot.num, binNum)])[0]
      ensures Took(old(Snap()), Snap(), slot.num, binNum, hdr, usrSize)
      ensures Evolves(old(Snap()), Snap(), hdr)
      ensures slot.log == old(slot.log) + [GetOf(binNum, usrSize)]
      ensures |slot.memBins| == old(|slot.memBins|) == MAX_ALLOC_POWER
      ensures slot.memBins[binNum].numFree == old(slot.memBins[binNum].numFree) - 1
      ensures slot.memBins[binNum].allocs == old(slot.memBins[binNum].allocs) + 1
      ensures slot.memBins == old(slot.memBins)[binNum := old(slot.memBins[binNum]).(
        headFree := slot.memBins[binNum].headFree, headInUse := slot.memBins[binNum].headInUse,
        numFree := slot.memBins[binNum].numFree, allocs := slot.memBins[binNum].allocs)]
    {
      hide Inv, PoolsOk, Evolves, Tally, MemSlot.OnSchedule, Took, AllTies, L.Servable, SizeBin;
      ghost var s0 := Snap();
      ghost var bins0, log0, ring := slot.memBins, slot.log, slot.delay.Contents();
      assert memSlots[slot.num].Tied(blk, lists) && memSlots[slot.num].Counted(cfg.dumpInterval);
      NetNonNegative(slot, blk, lists, cfg.dumpInterval);
      BinFacts(slot, blk, lists, binNum);
      var bin := slot.memBins[binNum];
      hdr := bin.headFree;
      var head, used := MoveToUsed(slot.num, binNum, bin.headFree, bin.headInUse, usrSize);
      slot.memBins := slot.memBins[binNum :=
        bin.(headFree := head, headInUse := used, numFree := bin.numFree - 1, allocs := bin.allocs + 1)];
      slot.CountGet(binNum, usrSize, cfg.dumpInterval);
      InvOwned(s0);
      TookTies(s0, Snap(), slot.num, binNum, hdr, Get(binNum, usrSize, SizeBin(usrSize)), bins0, slot.memBins, log0, ring, slot.delay.bins);
      TookSame(s0, Snap(), slot.num, binNum, hdr, usrSize);
      SlotsKept(s0, slot);
    }

    /** A call has ended, or not begun: everything is consistent and no block is between owners. */
    ghost predicate Calm()
      reads this, space, memSlots, Rings(), Arrays()
    {
      Valid() && isInit && pools != [] && Settled(blk, NULL) && WellStocked()
    }

    /** After initialization the small bins of every slot never run low. */
    ghost predicate WellStocked()
      reads memSlots
    {
      forall i | 0 <= i < |memSlots| :: InStock(memSlots[i].memBins)
    }

    /** The part of `getBuf` done under one slot's lock. */
    method GetBufFrom(slot: MemSlot, binNum: nat, usrSize: nat) returns (st: Status, hdr: Ptr)
      requires Calm() && IsSlot(slot) && MIN_BIN <= binNum < MAX_ALLOC_POWER
      requires L.Servable(usrSize) && SizeBin(usrSize) <= binNum
      modifies this`currMemPool, this`lo, this`hi, this`pools, this`memPools, this`blk, this`lists, this`spot,
               space, slot
      ensures var goal := Refilling(old(Reserves()), old(slot.memBins), binNum);
        Explained(st, goal, Reserves(), old(space.refusals), space.refusals)
      ensures st.NoMemory? ==> Calm() && Evolves(old(Snap()), Snap(), NULL) && hdr == NULL && slot.log == old(slot.log)
      ensures st.Ok? ==> Valid() && pools != [] && Granted(old(Snap()), Snap(), hdr, slot.num, binNum, usrSize)
      ensures st.Ok? ==> slot.log == old(slot.log) + [GetOf(binNum, usrSize)]
      ensures old(hi - lo) >= CostOf(old(slot.memBins), binNum) ==> st.Ok?
      ensures |old(slot.memBins)| == MAX_ALLOC_POWER
      ensures st.Ok? ==> |slot.memBins| == MAX_ALLOC_POWER
      ensures st.Ok? ==> slot.memBins[binNum].numFree == RefillTarget(binNum, old(slot.memBins[binNum])) - 1
      ensures st.Ok? ==> Replenished(old(slot.memBins[binNum]), slot.memBins[binNum].numFree + 1) && WellStocked()
    {
      hide Inv, PoolsOk, Evolves, SlotsOk, Shape, ListsOk, L.Servable, SizeBin, Refilled, Took;
      hide Explained, CostOf, RefillTarget, GetOf, Settled, Granted, Rings, Arrays;
      hide InStock, Replenished;
      ghost var s0, bins0 := Snap(), slot.memBins;
      SlotBins(slot);
      assert InStock(memSlots[slot.num].memBins);
      st := Refill(slot, binNum);
      hdr := NULL;
      if st != Ok {
        if st == NoMemory {
          StockGrows(bins0, slot.memBins, binNum);
          InvOwned(s0);
          RefilledSettled(s0, Snap(), FreeList(slot.num, binNum), NULL);
        }
        return;
      }
      ghost var s1, bins1 := Snap(), slot.memBins;
      hdr := TakeFirst(slot, binNum, usrSize);
      StockLasts(bins0, bins1, slot.memBins, binNum);
      GrantNow(s0, s1, Snap(), slot.num, binNum, hdr, usrSize);
    }

    method PickSlot(usrSize: nat) returns (slotNum: nat)
      requires Calm()
      modifies this`racySlotRr
      ensures Calm() && slotNum < |memSlots| && IsSlot(memSlots[slotNum])
      ensures slotNum == SlotFor(usrSize, old(racySlotRr), cfg.numSlots)
      ensures cfg.numSlots > 0 && Rotates(usrSize, cfg.numSlots, old(racySlotRr), slotNum, racySlotRr)
      ensures usrSize < MAX_FLOATING_SIZE ==> racySlotRr == (old(racySlotRr) + 1) % 0x1_0000_0000_0000_0000
      ensures usrSize >= MAX_FLOATING_SIZE ==> racySlotRr == old(racySlotRr)
    {
      hide Inv, PoolsOk, Tally, MemSlot.Tied;
      slotNum := 0;
      if usrSize < MAX_FLOATING_SIZE {
        slotNum := racySlotRr % cfg.numSlots;
        racySlotRr := (racySlotRr + 1) % 0x1_0000_0000_0000_0000;
      }
    }

    /** Pool bytes that granting the next request of this size will take. */
    ghost function PoolNeed(allocSize: nat, usrSize: nat): nat
      reads this`racySlotRr, memSlots
    {
      var i := SlotFor(usrSize, racySlotRr, cfg.numSlots);
      if i < |memSlots| && L.Servable(allocSize) then CostOf(memSlots[i].memBins, L.BinFor(allocSize)) else 0
    }

    /** The pools after granting the next request of this size. */
    ghost function Granting(allocSize: nat, usrSize: nat): Reserve
      reads this`racySlotRr, this`currMemPool, this`lo, this`hi, memSlots
    {
      var i := SlotFor(usrSize, racySlotRr, cfg.numSlots);
      if i < |memSlots| && L.Servable(allocSize) then Refilling(Reserves(), memSlots[i].memBins, L.BinFor(allocSize)) else Reserves()
    }

    /** Every block each slot has delayed, in order. */
    ghost function Puts(): (puts: seq<seq<Ptr>>)
      reads Rings()
      ensures |puts| == |memSlots| && forall i | 0 <= i < |puts| :: puts[i] == memSlots[i].delay.puts
    {
      assert forall m | m in memSlots :: m.delay in Rings();
      seq(|memSlots|, i requires 0 <= i < |memSlots| reads Rings() => memSlots[i].delay.puts)
    }

    /** The history of each slot. */
    ghost function Logs(): (logs: seq<Log>)
      reads memSlots
      ensures |logs| == |memSlots| && forall i | 0 <= i < |logs| :: logs[i] == memSlots[i].log
    {
      seq(|memSlots|, i requires 0 <= i < |memSlots| reads memSlots => memSlots[i].log)
    }

    method GetBuf(allocSize: nat, usrSize: nat) returns (st: Status, hdr: Ptr, end: Ptr)
      requires Calm() && L.Servable(allocSize) && usrSize <= allocSize
      modifies this`racySlotRr, this`currMemPool, this`lo, this`hi, this`pools, this`memPools, this`blk,
               this`lists, this`spot, space, memSlots
      ensures Explained(st, old(Granting(allocSize, usrSize)), Reserves(), old(space.refusals), space.refusals)
      ensures st.NoMemory? ==> Calm() && Evolves(old(Snap()), Snap(), NULL) && hdr == NULL
      ensures st.Ok? ==> Valid() && pools != [] && hdr in blk && end == hdr + Pow2(L.BinFor(allocSize))
      ensures st.Ok? ==> Granted(old(Snap()), Snap(), hdr, blk[hdr].slot, L.BinFor(allocSize), usrSize)
      ensures st.Ok? ==> WellStocked()
      ensures st.Ok? ==> blk[hdr].slot == SlotFor(usrSize, old(racySlotRr), cfg.numSlots)
      ensures st.Ok? ==> cfg.numSlots > 0 && Rotates(usrSize, cfg.numSlots, old(racySlotRr), blk[hdr].slot, racySlotRr)
      ensures old(hi - lo) >= old(PoolNeed(allocSize, usrSize)) ==> st.Ok?
      ensures st.NoMemory? ==> Logs() == old(Logs())
      ensures st.Ok? ==> Logs() == Appended(old(Logs()), blk[hdr].slot, GetOf(L.BinFor(allocSize), usrSize))
    {
      hide Inv, PoolsOk, Evolves, SlotsOk, ListsOk, L.Servable, L.BinFor, SizeBin, InStock, Replenished;
      hide Rotates, Explained, GetOf;
      L.BinIsTight(allocSize);
      SizeBinBelow(usrSize, allocSize);
      var binNum := L.BinFor(allocSize);
      var slotNum := PickSlot(usrSize);
      st, hdr := GetBufFrom(memSlots[slotNum], binNum, usrSize);
      end := hdr + Pow2(binNum);
    }

    // ---------------------------------------------------------------- malloc and its relatives

    /** A change that touches no list and no size leaves every slot tied. */
    lemma SlotsStay(s: State)
      requires Inv(s) && Shape() && forall j: nat :: SlotSame(s, Snap(), j)
      requires forall m | m in memSlots :: m.Counted(cfg.dumpInterval) && m.Tied(s.blk, s.lists)
      ensures SlotsOk()
    {
      hide Inv, Tally, MemSlot.Tied, SlotSame;
      InvOwned(s);
      forall i | 0 <= i < |memSlots| ensures memSlots[i].Counted(cfg.dumpInterval) && memSlots[i].Tied(blk, lists) {
        assert memSlots[i] in memSlots;
        TiedKept(memSlots[i], s, Snap());
      }
    }

    /** Replace a block's record by one with the same place and size. */
    ghost method Relabel(h: Ptr, b: Block, s: State)
      requires Shape() && h in blk && SameSize(blk[h], b)
      requires Inv(s) && s.blk == blk && s.lists == lists && SlotsOk()
      requires PoolsOk(BinsOf(blk), NO_TILE)
      modifies this`blk
      ensures blk == old(blk)[h := b] && SlotsOk() && PoolsOk(BinsOf(blk), NO_TILE)
    {
      hide Inv, PoolsOk, Tally, MemSlot.Tied;
      assert BinsOf(blk[h := b]) == BinsOf(blk);
      blk := blk[h := b];
      SlotsStay(s);
    }

    /** The part of `memalignInt` after `getBuf`. */
    method FurnishBlock(hdr: Ptr, end: Ptr, alignment: nat, usrSize: nat) returns (p: Ptr)
      requires Valid() && hdr in blk && blk[hdr].own.Taken?
      requires blk[hdr].size == usrSize && end == hdr + Pow2(blk[hdr].bin)
      requires L.AllocSize(cfg.hdrSize, alignment, usrSize) <= Pow2(blk[hdr].bin)
      modifies this`blk, space`mem
      ensures space.Valid() && PoolsOk(BinsOf(blk), NO_TILE) && SlotsOk()
      ensures usrSize <= end
      ensures Furnished(old(space.mem), space.mem, hdr, old(blk[hdr].bin), p, usrSize, L.Misalignment(end, alignment, usrSize))
      ensures hdr + cfg.hdrSize + WORD_SIZE <= p && (alignment > 1 ==> p % alignment == 0)
      ensures blk == old(blk)[hdr := old(blk[hdr]).(own := Used, usr := p)]
      ensures cfg.poison ==> IsFilled(space.mem, p, usrSize, cfg.poisonVal)
    {
      hide Inv, PoolsOk, Tally, MemSlot.Tied, Furnished;
      ghost var s := Snap();
      TakenFacts(s, hdr);
      p := Furnish(space, hdr, blk[hdr].bin, cfg.hdrSize, end, alignment, usrSize, cfg.poison, cfg.poisonVal);
      Relabel(hdr, blk[hdr].(own := Used, usr := p), s);
    }

    /** The body of every allocation call: p is NULL when the kernel refuses more memory. */
    method MemalignInt(alignment: nat, usrSize: nat) returns (st: Status, p: Ptr, ghost h: Ptr)
      requires Calm() && L.Servable(L.AllocSize(cfg.hdrSize, alignment, usrSize))
      modifies this`racySlotRr, this`currMemPool, this`lo, this`hi, this`pools, this`memPools, this`blk,
               this`lists, this`spot, space, memSlots
      ensures var goal := old(Granting(L.AllocSize(cfg.hdrSize, alignment, usrSize), usrSize));
        Explained(st, goal, Reserves(), old(space.refusals), space.refusals)
      ensures st.NoMemory? ==> p == NULL && Calm() && Quiet(old(Snap()), Snap())
      ensures st.Ok? ==> Calm() && Allocated(old(Snap()), Snap(), h, p, alignment, usrSize)
      ensures st.Ok? && cfg.poison ==> IsFilled(space.mem, p, usrSize, cfg.poisonVal)
      ensures old(hi - lo) >= old(PoolNeed(L.AllocSize(cfg.hdrSize, alignment, usrSize), usrSize)) ==> st.Ok?
      ensures st.NoMemory? ==> Logs() == old(Logs())
      ensures st.Ok? ==> Logs() == Appended(old(Logs()), blk[h].slot, GetOf(blk[h].bin, usrSize))
      ensures st.NoMemory? ==> Takes(old(Snap()), Nothing, Snap())
      ensures st.Ok? ==> Takes(old(Snap()), Gain(h, p, Cells(space.mem, p, usrSize)), Snap())
      ensures st.Ok? ==> cfg.numSlots > 0 && h in blk && Rotates(usrSize, cfg.numSlots, old(racySlotRr), blk[h].slot, racySlotRr)
    {
      hide Inv, PoolsOk, Evolves, SlotsOk, ListsOk, L.Servable, L.BinFor, Furnished, Allocated, Quiet, Takes;
      hide PoolNeed, GetOf, Appended, SlotFor, Shape, Granting, Explained, InStock, Rotates;
      ghost var s0 := Snap();
      var allocSize := L.AllocSize(cfg.hdrSize, alignment, usrSize);
      L.BinIsTight(allocSize);
      var hdr, end;
      st, hdr, end := GetBuf(allocSize, usrSize);
      p, h := NULL, hdr;
      if st == Ok {
        ghost var u := Snap();
        L.LayoutFits(hdr, cfg.hdrSize, alignment, usrSize, blk[hdr].bin);
        p := FurnishBlock(hdr, end, alignment, usrSize);
        AllocatedNow(s0, u, Snap(), hdr, p, alignment, usrSize, u.blk[hdr].slot, L.Misalignment(end, alignment, usrSize));
        AllocatedTakes(s0, Snap(), hdr, p, alignment, usrSize);
      } else if st == NoMemory {
        QuietNow(s0, Snap());
        QuietTakes(s0, Snap());
      }
    }

    // ---------------------------------------------------------------- delayed free

    /** The lists `delayFreeBatch` works on are consistent. */
    ghost predicate RingOk(slot: MemSlot)
      reads this`blk, this`lists, slot, slot.delay, slot.delay.elms
    {
      && IsSlot(slot) && DelayRing(slot.num) in lists && FreeTies(lists, slot.num, slot.memBins)
      && slot.delay.Valid() && RingTie(blk, lists, slot.num, slot.delay.Contents(), slot.delay.bins)
    }

    /** `circGet` and the unprotection that follows it. */
    method TakeOldest(slot: MemSlot) returns (hdr: Ptr, binNum: nat)
      requires HeapOk(NO_TILE) && RingOk(slot) && slot.delay.Contents() != []
      modifies this`blk, this`lists, space`noAccess, slot.delay
      ensures HeapOk(NO_TILE) && hdr in old(blk) && old(blk[hdr]).slot == slot.num && old(blk[hdr]).own.Delayed?
      ensures binNum == old(blk[hdr]).bin < MAX_ALLOC_POWER
      ensures Snap() == Unquarantine(old(Snap()), DelayRing(slot.num), hdr, old(blk[hdr].bin))
      ensures Reachable(space.noAccess, hdr, Pow2(old(blk[hdr].bin)))
      ensures slot.delay.Valid() && [hdr] + slot.delay.Contents() == old(slot.delay.Contents())
      ensures slot.delay.bins == old(slot.delay.bins)[1..] && slot.delay.puts == old(slot.delay.puts)
    {
      hide Inv, PoolsOk, FreeTies, Shape, ListsOk, MemFreeDelay.Contents;
      ghost var s, l := Snap(), DelayRing(slot.num);
      ghost var bin := blk[slot.delay.Contents()[0]].bin;
      OldestFacts(s, l, slot.delay.Contents()[0]);
      UnquarantineInv(s, l, slot.delay.Contents()[0], bin);
      hdr, binNum := slot.delay.GetAccessible(space);
      SameBins(blk, hdr, Loose);
      assert lists[l := Minus(lists[l], 0)].Keys == lists.Keys;
      lists := lists[l := Minus(lists[l], 0)];
      blk := Reown(blk, hdr, Loose);
    }

    /** One round of the loop of `delayFreeBatch`. */
    method DrainOne(slot: MemSlot)
      requires HeapOk(NO_TILE) && RingOk(slot) && slot.delay.Contents() != []
      modifies this`blk, this`lists, space`mem, space`noAccess, slot`memBins, slot.delay
      ensures HeapOk(NO_TILE) && RingOk(slot)
      ensures slot.delay.Contents() == old(slot.delay.Contents())[1..] && slot.delay.puts == old(slot.delay.puts)
      ensures Drained(old(Snap()), Snap(), slot.num) && Evolves(old(Snap()), Snap(), NULL)
      ensures SameUse(old(slot.memBins), slot.memBins)
    {
      hide Inv, HeapOk, Evolves, Drained, Attach, Unquarantine, FreeTies, Reachable, MemFreeDelay.Contents;
      hide MemFreeDelay.Valid, SameUse, RingTie;
      HeapInv(NO_TILE);
      ghost var s0, r, bins0, ring0, b0 := Snap(), DelayRing(slot.num), slot.memBins, slot.delay.Contents(), slot.delay.bins;
      RingHead(blk, lists, slot.num, ring0, b0);
      OldestFacts(s0, r, ring0[0]);
      FreeTiesAt(lists, slot.num, slot.memBins, blk[ring0[0]].bin);
      var hdr, binNum := TakeOldest(slot);
      HeapInv(NO_TILE);
      ghost var s1 := Snap();
      UnquarantineEvolves(s0, r, hdr, binNum);
      LooseNow(s0, r, hdr, binNum);
      FreeTieKept(s0.lists, s1.lists, slot.num, binNum, slot.memBins[binNum]);
      AttachEvolves(s1, FreeList(slot.num, binNum), hdr, Avail, NULL);
      PushFree(slot, binNum, hdr);
      EvolvesTrans(s0, s1, Snap(), NULL);
      InvOwned(s0);
      DrainOneTies(s0, Snap(), slot.num, hdr, binNum, bins0, slot.memBins);
      RingShrinks(s0, Snap(), slot.num, hdr, ring0, slot.delay.Contents(), slot.delay.bins, b0);
    }

    /** Drain the ring down to a quarter of its capacity. */
    method DelayFreeBatch(slot: MemSlot)
      requires HeapOk(NO_TILE) && RingOk(slot)
      modifies this`blk, this`lists, space`mem, space`noAccess, slot`memBins, slot.delay
      ensures HeapOk(NO_TILE) && RingOk(slot) && slot.delay.puts == old(slot.delay.puts)
      ensures Drained(old(Snap()), Snap(), slot.num) && Evolves(old(Snap()), Snap(), NULL)
      ensures SameUse(old(slot.memBins), slot.memBins)
      ensures var n := old(|slot.delay.Contents()|);
        slot.delay.Contents() == old(slot.delay.Contents())[n - (if n > slot.delay.cap / 4 then slot.delay.cap / 4 else n)..]
    {
      hide Inv, PoolsOk, Shape, ListsOk, Evolves, Drained, RingTie, FreeTies, SameUse, MemFreeDelay.Contents;
      hide MemFreeDelay.Valid;
      ghost var s0, q := Snap(), slot.delay.Contents();
      ghost var gone := 0;
      EvolvesRefl(s0);
      DrainedRefl(s0, slot.num);
      SameUseRefl(slot.memBins);
      var n := slot.delay.CircCount();
      while n > slot.delay.cap / 4
        invariant HeapOk(NO_TILE) && RingOk(slot) && slot.delay.puts == old(slot.delay.puts)
        invariant Drained(s0, Snap(), slot.num) && Evolves(s0, Snap(), NULL)
        invariant SameUse(old(slot.memBins), slot.memBins)
        invariant gone <= |q| && n == |q| - gone && slot.delay.Contents() == q[gone..]
        invariant gone == 0 || n >= slot.delay.cap / 4
        decreases n
      {
        ghost var s1, bins1 := Snap(), slot.memBins;
        DrainOne(slot);
        EvolvesTrans(s0, s1, Snap(), NULL);
        DrainedTrans(s0, s1, Snap(), slot.num);
        SameUseTrans(old(slot.memBins), bins1, slot.memBins);
        gone := gone + 1;
        n := slot.delay.CircCount();
      }
    }

    /** The test `delayPut` starts with. */
    method DrainIfFull(slot: MemSlot)
      requires HeapOk(NO_TILE) && RingOk(slot)
      modifies this`blk, this`lists, space`mem, space`noAccess, slot`memBins, slot.delay
      ensures HeapOk(NO_TILE) && RingOk(slot) && slot.delay.puts == old(slot.delay.puts)
      ensures Drained(old(Snap()), Snap(), slot.num) && Evolves(old(Snap()), Snap(), NULL)
      ensures SameUse(old(slot.memBins), slot.memBins)
      ensures var q := old(slot.delay.Contents());
        slot.delay.Contents() == if |q| > slot.delay.cap / 2 then q[|q| - slot.delay.cap / 4..] else q
    {
      hide Inv, HeapOk, Evolves, Drained, RingTie, FreeTies, SameUse, MemFreeDelay.Valid, MemFreeDelay.Contents;
      EvolvesRefl(Snap());
      DrainedRefl(Snap(), slot.num);
      SameUseRefl(slot.memBins);
      var count := slot.delay.CircCount();
      if count > slot.delay.cap / 2 {
        DelayFreeBatch(slot);
      }
    }

    /** Put a loose block into the ring, draining first if more than half of it is in use. */
    method DelayPut(slot: MemSlot, hdr: Ptr)
      requires HeapOk(NO_TILE) && RingOk(slot) && slot.OnSchedule()
      requires hdr in blk && blk[hdr].own.Loose? && blk[hdr].slot == slot.num
      requires Reachable(space.noAccess, hdr, Pow2(blk[hdr].bin))
      modifies this`blk, this`lists, space`mem, space`noAccess, slot`memBins, slot.delay, slot.delay.elms
      ensures HeapOk(NO_TILE) && RingOk(slot) && slot.OnSchedule() && slot.delay.puts == old(slot.delay.puts) + [hdr]
      ensures Queued(old(Snap()), Snap(), slot.num, hdr) && Evolves(old(Snap()), Snap(), hdr)
      ensures SameUse(old(slot.memBins), slot.memBins)
    {
      hide Inv, HeapOk, Evolves, Drained, RingTie, FreeTies, SameUse, MemFreeDelay.Valid, MemFreeDelay.Contents;
      hide Queued, Reachable, Released;
      HeapInv(NO_TILE);
      ghost var s0, q := Snap(), slot.delay.Contents();
      ghost var cap, puts := slot.delay.cap, slot.delay.puts;
      DrainIfFull(slot);
      ghost var s1 := Snap();
      LooseStays(s0, s1, slot.num, hdr);
      ScheduleStep(cap, puts, q, slot.delay.Contents(), hdr);
      Enqueue(slot, hdr);
      QueuedAfter(s0, s1, Snap(), slot.num, hdr);
      HeapInv(NO_TILE);
      EvolvesWeaken(s0, s1, hdr);
      EvolvesTrans(s0, s1, Snap(), hdr);
    }

    /** `circPut` and the protection that follows it. */
    method Enqueue(slot: MemSlot, hdr: Ptr)
      requires HeapOk(NO_TILE) && RingOk(slot) && |slot.delay.Contents()| <= slot.delay.cap / 2
      requires hdr in blk && blk[hdr].own.Loose? && blk[hdr].slot == slot.num
      requires Reachable(space.noAccess, hdr, Pow2(blk[hdr].bin))
      modifies this`blk, this`lists, space`noAccess, slot.delay, slot.delay.elms
      ensures HeapOk(NO_TILE) && RingOk(slot)
      ensures slot.delay.puts == old(slot.delay.puts) + [hdr] && slot.delay.Contents() == old(slot.delay.Contents()) + [hdr]
      ensures Snap() == Quarantine(old(Snap()), DelayRing(slot.num), hdr, old(blk[hdr].bin))
      ensures Evolves(old(Snap()), Snap(), hdr)
    {
      hide Inv, PoolsOk, Shape, Evolves, FreeTies, MemFreeDelay.Contents, MemFreeDelay.Valid, RingTie;
      ghost var s, l := Snap(), DelayRing(slot.num);
      ghost var bin, ring, bins := blk[hdr].bin, slot.delay.Contents(), slot.delay.bins;
      QuarantineInv(s, l, hdr, bin);
      BlockReady(s, hdr);
      BlockPages(s, hdr);
      slot.delay.PutInaccessible(space, hdr);
      SameBins(blk, hdr, Delayed);
      assert lists[l := lists[l] + [hdr]].Keys == lists.Keys;
      lists := lists[l := lists[l] + [hdr]];
      blk := Reown(blk, hdr, Delayed);
      ProtectEvolves(s, space.noAccess, lists, hdr, Delayed, hdr);
      FreeTiesKept(s.lists, lists, slot.num, slot.memBins);
      RingGrows(s, Snap(), slot.num, hdr, ring, bins, bin);
    }

    // ---------------------------------------------------------------- putBuf

    lemma SlotParts(i: nat, b: nat)
      requires HeapOk(NO_TILE) && UsedList(i, b) in lists
      ensures i < |memSlots| && IsSlot(memSlots[i]) && memSlots[i].num == i
      ensures memSlots[i] in memSlots && memSlots[i].delay in Rings() && memSlots[i].delay.elms in Arrays()
    {
      hide Inv, PoolsOk;
      assert IsListId(UsedList(i, b), cfg.numSlots);
    }

    /** Mark a live block as being freed, and find its slot. */
    method StampFree(hdr: Ptr) returns (slotNum: nat)
      requires Valid() && hdr in blk && blk[hdr].own.Used?
      modifies this`blk, space`mem
      ensures blk == old(blk)[hdr := old(blk[hdr]).(own := Leaving)]
      ensures slotNum == blk[hdr].slot < |memSlots| && IsSlot(memSlots[slotNum]) && memSlots[slotNum].num == slotNum
      ensures memSlots[slotNum] in memSlots && memSlots[slotNum].delay in Rings() && memSlots[slotNum].delay.elms in Arrays()
      ensures Valid() && Evolves(old(Snap()), Snap(), hdr)
    {
      hide Inv, PoolsOk, Tally, MemSlot.Tied, Evolves, ListsOk;
      ghost var s := Snap();
      BlockReady(s, hdr);
      BlockFacts(s, hdr);
      StampInv(s, hdr);
      assert space.LoadHdr(hdr).magic == MAGIC_INUSE;
      space.StoreHdr(hdr, space.LoadHdr(hdr).(magic := MAGIC_FREE));
      slotNum := space.LoadHdr(hdr).slotNum;
      Relabel(hdr, blk[hdr].(own := Leaving), s);
      SlotParts(slotNum, blk[hdr].bin);
    }

    /** The counters of a slot while a put has taken its block off the in-use list but not yet counted the free. */
    ghost predicate HalfPut(slot: MemSlot, b: nat)
      reads this`blk, this`lists, slot, slot.delay, slot.delay.elms
    {
      && IsSlot(slot) && slot.delay.Valid() && slot.OnSchedule() && slot.Counted(cfg.dumpInterval)
      && b < |slot.memBins|
      && AllTies(blk, lists, slot.num, Bump(slot.memBins, b), slot.log, slot.delay.Contents(), slot.delay.bins)
    }

    /** `rmElm(&bin->headInUse, hdr)`. */
    method DropUsed(headInUse: Ptr, hdr: Ptr, ghost l: ListId) returns (newHead: Ptr, ghost k: nat)
      requires HeapOk(NO_TILE) && l.UsedList? && l in lists && headInUse == First(lists[l])
      requires hdr in blk && blk[hdr].own.Leaving? && Home(blk[hdr]) == l
      modifies this`blk, this`lists, space`mem
      ensures HeapOk(NO_TILE) && Left(old(Snap()), Snap(), l.slot, l.bin, k, hdr) && newHead == First(lists[l])
      ensures Evolves(old(Snap()), Snap(), hdr) && Reachable(space.noAccess, hdr, Pow2(old(blk[hdr].bin)))
    {
      hide Inv, PoolsOk, Evolves, Unlink, Reachable, Shape, ListsOk;
      ghost var s0 := Snap();
      ListFacts(s0, l);
      k :| 0 <= k < |lists[l]| && lists[l][k] == hdr;
      DetachEvolves(s0, l, k, hdr);
      newHead := Remove(l, headInUse, hdr, k);
    }

    /** The first half of `putBuf` under the slot's lock. */
    method UnlinkUsed(slot: MemSlot, hdr: Ptr, binNum: nat) returns (ghost k: nat)
      requires Valid() && IsSlot(slot) && hdr in blk && blk[hdr].own.Leaving?
      requires blk[hdr].slot == slot.num && blk[hdr].bin == binNum
      modifies this`blk, this`lists, space`mem, slot
      ensures HeapOk(NO_TILE) && HalfPut(slot, binNum) && Evolves(old(Snap()), Snap(), hdr)
      ensures Left(old(Snap()), Snap(), slot.num, binNum, k, hdr)
      ensures Reachable(space.noAccess, hdr, Pow2(binNum))
      ensures slot.log == old(slot.log) + [PutOf(old(blk[hdr]))]
      ensures forall m | m in memSlots && m != slot :: m.Counted(cfg.dumpInterval) && m.Tied(old(blk), old(lists))
      ensures NoFewer(old(slot.memBins), slot.memBins)
    {
      hide Inv, PoolsOk, Evolves, AllTies, Tally, MemSlot.OnSchedule, L.Servable, SizeBin, Reachable, Left;
      hide MemFreeDelay.Valid, MemFreeDelay.Contents, Shape, ListsOk;
      ghost var s0, bins0, log0, ring, u := Snap(), slot.memBins, slot.log, slot.delay.Contents(), UsedList(slot.num, binNum);
      assert memSlots[slot.num].Tied(blk, lists) && memSlots[slot.num].Counted(cfg.dumpInterval);
      LeavingFacts(s0, hdr);
      BinFacts(slot, blk, lists, binNum);
      var size := space.LoadHdr(hdr).usrDataSize;
      slot.CountPut(binNum, size, cfg.dumpInterval);
      var bin := slot.memBins[binNum];
      var head;
      head, k := DropUsed(bin.headInUse, hdr, u);
      slot.memBins := slot.memBins[binNum := bin.(headInUse := head)];
      InvOwned(s0);
      LeftTies(s0, Snap(), slot.num, binNum, k, hdr, Put(binNum, size, SizeBin(size)), bins0,
               Bump(slot.memBins, binNum), log0, ring, slot.delay.bins)
      by { LeftHead(s0, Snap(), slot.num, binNum, k, hdr); }
    }

    /** The second half when freed blocks go straight back to the free list. */
    method RetireFree(slot: MemSlot, hdr: Ptr, binNum: nat)
      requires HeapOk(NO_TILE) && HalfPut(slot, binNum) && binNum < MAX_ALLOC_POWER
      requires hdr in blk && blk[hdr].own.Loose? && blk[hdr].slot == slot.num && blk[hdr].bin == binNum
      requires Reachable(space.noAccess, hdr, Pow2(binNum))
      modifies this`blk, this`lists, space`mem, slot`memBins
      ensures HeapOk(NO_TILE) && HalfPut(slot, binNum)
      ensures OtherSlotsSame(old(Snap()), Snap(), slot.num) && Evolves(old(Snap()), Snap(), hdr)
      ensures blk == Reown(old(blk), hdr, Avail) && NoFewer(old(slot.memBins), slot.memBins)
    {
      hide Inv, HeapOk, Evolves, AllTies, Tally, MemSlot.OnSchedule, Attach, Reachable, OtherSlotsSame, FreeTies;
      hide FreeTie, Bump, RingOk, MemFreeDelay.Valid, MemFreeDelay.Contents;
      HeapInv(NO_TILE);
      ghost var s0, f, bins0 := Snap(), FreeList(slot.num, binNum), slot.memBins;
      HalfFacts(slot, binNum);
      AttachEvolves(s0, f, hdr, Avail, hdr);
      PushFree(slot, binNum, hdr);
      InvOwned(s0);
      FreedTies(s0, slot.num, binNum, hdr, bins0, slot.memBins, slot.log, slot.delay.Contents(), slot.delay.bins);
    }

    /** The second half when freed blocks are delayed. */
    method RetireDelayed(slot: MemSlot, hdr: Ptr, binNum: nat)
      requires HeapOk(NO_TILE) && HalfPut(slot, binNum) && binNum < MAX_ALLOC_POWER
      requires hdr in blk && blk[hdr].own.Loose? && blk[hdr].slot == slot.num && blk[hdr].bin == binNum
      requires Reachable(space.noAccess, hdr, Pow2(binNum))
      modifies this`blk, this`lists, space`mem, space`noAccess, slot`memBins, slot.delay, slot.delay.elms
      ensures HeapOk(NO_TILE) && HalfPut(slot, binNum)
      ensures OtherSlotsSame(old(Snap()), Snap(), slot.num) && Evolves(old(Snap()), Snap(), hdr)
      ensures Queued(old(Snap()), Snap(), slot.num, hdr)
      ensures slot.delay.puts == old(slot.delay.puts) + [hdr] && NoFewer(old(slot.memBins), slot.memBins)
    {
      hide Inv, PoolsOk, Evolves, Tally, MemSlot.OnSchedule, Reachable, Shape, ListsOk, Queued, SameUse, NoFewer;
      hide OtherSlotsSame, FreeTies, AllTies, RingTie, MemFreeDelay.Contents, Bump;
      ghost var s0, ring, ringBins := Snap(), slot.delay.Contents(), slot.delay.bins;
      ghost var bins0 := slot.memBins;
      HalfFacts(slot, binNum);
      DelayPut(slot, hdr);
      SameUseKeeps(bins0, slot.memBins);
      CountedFree(lists, slot.num, bins0, slot.memBins, binNum);
      InvOwned(s0);
      QueuedTies(s0, Snap(), slot.num, hdr, Bump(bins0, binNum), Bump(slot.memBins, binNum), slot.log, ring, ringBins, slot.delay.Contents(), slot.delay.bins);
      QueuedSame(s0, Snap(), slot.num, hdr);
    }

    lemma HalfFacts(slot: MemSlot, b: nat)
      requires HalfPut(slot, b) && b < MAX_ALLOC_POWER && HeapOk(NO_TILE)
      ensures |slot.memBins| == MAX_ALLOC_POWER && RingOk(slot)
      ensures FreeTie(lists, slot.num, b, slot.memBins[b]) && FreeList(slot.num, b) in lists
    {
      hide Inv, PoolsOk, Shape, ListsOk, Tally, MemSlot.OnSchedule;
      ghost var bins := Bump(slot.memBins, b);
      forall c | 0 <= c < MAX_ALLOC_POWER ensures FreeTie(lists, slot.num, c, slot.memBins[c]) {
        assert FreeTie(lists, slot.num, c, bins[c]);
      }
    }

    ghost predicate OthersTied(slot: MemSlot, blk0: map<Ptr, Block>, lists0: map<ListId, seq<Ptr>>)
      reads memSlots, Rings(), Arrays()
    {
      forall m | m in memSlots && m != slot :: m.Counted(cfg.dumpInterval) && m.Tied(blk0, lists0)
    }

    /** `bin->frees++`. */
    method CountFree(slot: MemSlot, binNum: nat)
      requires HalfPut(slot, binNum)
      modifies slot`memBins
      ensures slot.Counted(cfg.dumpInterval) && slot.Tied(blk, lists) && NoFewer(old(slot.memBins), slot.memBins)
    {
      hide AllTies, Tally, MemSlot.OnSchedule;
      slot.memBins := slot.memBins[binNum := slot.memBins[binNum].(frees := slot.memBins[binNum].frees + 1)];
    }

    /** No two slots share a ring or its array. */
    lemma OtherObjects(slot: MemSlot)
      requires Shape() && IsSlot(slot)
      ensures forall m | m in memSlots && m != slot :: m.delay != slot.delay && m.delay.elms != slot.delay.elms
    {
      forall m | m in memSlots && m != slot ensures m.delay != slot.delay && m.delay.elms != slot.delay.elms {
        var i :| 0 <= i < |memSlots| && memSlots[i] == m;
        assert i != slot.num;
      }
    }

    lemma OtherRings(k: nat)
      requires Shape() && k < |memSlots|
      ensures forall i | 0 <= i < |memSlots| && i != k ::
        memSlots[i] != memSlots[k] && memSlots[i].delay != memSlots[k].delay
    {
    }

    /** Either second half. */
    method Retire(slot: MemSlot, hdr: Ptr, binNum: nat, ghost blk0: map<Ptr, Block>, ghost lists0: map<ListId, seq<Ptr>>)
      requires HeapOk(NO_TILE) && IsSlot(slot) && HalfPut(slot, binNum)
      requires binNum < MAX_ALLOC_POWER && OthersTied(slot, blk0, lists0)
      requires hdr in blk && blk[hdr].own.Loose? && blk[hdr].slot == slot.num
      requires blk[hdr].bin == binNum && Settled(blk, hdr)
      requires Reachable(space.noAccess, hdr, Pow2(binNum))
      modifies this`blk, this`lists, space`mem, space`noAccess, slot`memBins, slot.delay, slot.delay.elms
      ensures HeapOk(NO_TILE) && slot.Counted(cfg.dumpInterval) && slot.Tied(blk, lists) && OthersTied(slot, blk0, lists0)
      ensures OtherSlotsSame(old(Snap()), Snap(), slot.num) && Evolves(old(Snap()), Snap(), hdr)
      ensures hdr in blk && blk[hdr] == old(blk[hdr]).(own := if cfg.useDelay then Delayed else Avail) && Settled(blk, NULL)
      ensures slot.delay.puts == if cfg.useDelay then old(slot.delay.puts) + [hdr] else old(slot.delay.puts)
      ensures NoFewer(old(slot.memBins), slot.memBins)
    {
      hide Inv, HeapOk, Evolves, MemSlot.Tied, Tally, Reachable, OtherSlotsSame, Queued, HalfPut, Shape, NoFewer;
      OtherObjects(slot) by { HeapShape(NO_TILE); }
      ghost var s0, bins0 := Snap(), slot.memBins;
      if cfg.useDelay {
        RetireDelayed(slot, hdr, binNum);
        QueuedSettles(s0, Snap(), slot.num, hdr);
      } else {
        RetireFree(slot, hdr, binNum);
      }
      HeapInv(NO_TILE);
      ghost var bins1 := slot.memBins;
      CountFree(slot, binNum);
      NoFewerTrans(bins0, bins1, slot.memBins);
    }

    /** `putBuf` under the lock of the block's slot. */
    method PutBufFrom(slot: MemSlot, hdr: Ptr)
      requires Valid() && IsSlot(slot) && hdr in blk && blk[hdr].own.Leaving?
      requires blk[hdr].slot == slot.num && Settled(blk, hdr)
      modifies this`blk, this`lists, space`mem, space`noAccess, slot, slot.delay, slot.delay.elms
      ensures Valid() && Settled(blk, NULL) && Evolves(old(Snap()), Snap(), hdr)
      ensures hdr in blk && blk[hdr] == old(blk[hdr]).(own := if cfg.useDelay then Delayed else Avail)
      ensures slot.log == old(slot.log) + [PutOf(old(blk[hdr]))]
      ensures slot.delay.puts == if cfg.useDelay then old(slot.delay.puts) + [hdr] else old(slot.delay.puts)
      ensures NoFewer(old(slot.memBins), slot.memBins)
    {
      hide Inv, PoolsOk, Evolves, AllTies, Tally, MemSlot.Tied, Reachable, ListsOk, Left, HalfPut, OtherSlotsSame, NoFewer;
      ghost var s0, bins0 := Snap(), slot.memBins;
      LeavingFacts(s0, hdr);
      var binNum := space.LoadHdr(hdr).binNum;
      ghost var k := UnlinkUsed(slot, hdr, binNum);
      ghost var s1, bins1 := Snap(), slot.memBins;
      InvOwned(s0);
      LeftSame(s0, s1, slot.num, binNum, k, hdr);
      LeftSettles(s0, s1, slot.num, binNum, k, hdr);
      Retire(slot, hdr, binNum, s0.blk, s0.lists);
      NoFewerTrans(bins0, bins1, slot.memBins);
      OthersTrans(s0, s1, Snap(), slot.num);
      SlotsKept(s0, slot);
      EvolvesTrans(s0, s1, Snap(), hdr);
    }

    method PutBuf(buf: Ptr)
      requires Calm() && buf in blk && blk[buf].own.Used?
      modifies this`blk, this`lists, space`mem, space`noAccess, memSlots, Rings(), Arrays()
      ensures Calm() && Freed(old(Snap()), Snap(), buf, if cfg.useDelay then Delayed else Avail)
      ensures Logs() == Appended(old(Logs()), old(blk[buf].slot), PutOf(old(blk[buf])))
      ensures Takes(old(Snap()), Lose(buf, old(blk[buf].usr), if cfg.useDelay then Delayed else Avail), Snap())
      ensures Puts() == if cfg.useDelay then Appended(old(Puts()), old(blk[buf].slot), buf) else old(Puts())
    {
      hide Inv, PoolsOk, Evolves, SlotsOk, ListsOk, Freed, Rings, Arrays, Shape, Takes, SizeBin;
      hide L.Servable, Logs, Puts, InStock, NoFewer;
      ghost var s := Snap();
      HeapInv(NO_TILE);
      var slotNum := StampFree(buf);
      ghost var s1 := Snap();
      OtherRings(slotNum) by { HeapShape(NO_TILE); }
      ghost var logs, puts := Logs(), Puts();
      assert logs == old(Logs()) && puts == old(Puts()) && InStock(memSlots[slotNum].memBins);
      ghost var bins := memSlots[slotNum].memBins;
      PutBufFrom(memSlots[slotNum], buf);
      StockStays(bins, memSlots[slotNum].memBins);
      assert Logs() == Appended(logs, slotNum, PutOf(s.blk[buf]));
      assert Puts() == if cfg.useDelay then Appended(puts, slotNum, buf) else puts;
      EvolvesTrans(s, s1, Snap(), buf);
      FreedNow(s, Snap(), buf, if cfg.useDelay then Delayed else Avail);
      FreedTakes(s, Snap(), buf, s.blk[buf].usr, if cfg.useDelay then Delayed else Avail);
    }

    /** `free`, for NULL and for any pointer this allocator has issued, live or not. */
    method Free(ptr: Ptr, ghost h: Ptr) returns (st: Status)
      requires Calm() && (ptr != NULL ==> Issued(Snap(), ptr, h))
      modifies this`blk, this`lists, space`mem, space`noAccess, memSlots, Rings(), Arrays()
      ensures ptr == NULL ==> st.Ok? && Calm() && Snap() == old(Snap()) && Takes(old(Snap()), Nothing, Snap())
      ensures ptr != NULL ==> st == Outcome(FreeVerdict(old(Snap()), h))
      ensures ptr != NULL && st.Ok? ==> Calm() && Freed(old(Snap()), Snap(), h, if cfg.useDelay then Delayed else Avail)
      ensures ptr != NULL && st.Ok? ==> Logs() == Appended(old(Logs()), old(blk[h].slot), PutOf(old(blk[h])))
      ensures ptr != NULL && st.Ok? ==> Takes(old(Snap()), Lose(h, ptr, if cfg.useDelay then Delayed else Avail), Snap())
      ensures ptr != NULL && st.Ok? ==>
        Puts() == if cfg.useDelay then Appended(old(Puts()), old(blk[h].slot), h) else old(Puts())
      ensures !st.Ok? ==> Snap() == old(Snap())
    {
      hide Inv, PoolsOk, Evolves, SlotsOk, ListsOk, Freed, Takes, PutOf, Appended, Settled, Shape;
      StillTakes(Snap());
      if ptr == NULL {
        return Ok;
      }
      IssuedFacts(Snap(), ptr, h);
      if !space.CanUse(ptr - WORD_SIZE, WORD_SIZE) {
        return Segv;
      }
      var hdr := space.LoadWord(ptr - WORD_SIZE);
      assert space.mem[ptr - WORD_SIZE] == Word(h, 0);
      if space.LoadHdr(hdr).magic != MAGIC_INUSE {
        return Aborted;
      }
      LiveFacts(Snap(), h);
      var e := space.LoadHdr(hdr);
      if e.misalignment > 0 && !space.Holds(e.usrData + e.usrDataSize, Min(e.misalignment, MAX_SLOP), MAGIC_SLOP) {
        return Aborted;
      }
      PutBuf(hdr);
      return Ok;
    }

    // ---------------------------------------------------------------- the public calls

    method Memalign(alignment: nat, usrSize: nat) returns (st: Status, p: Ptr, ghost h: Ptr)
      requires Calm() && L.Servable(L.AllocSize(cfg.hdrSize, alignment, usrSize))
      modifies this`racySlotRr, this`currMemPool, this`lo, this`hi, this`pools, this`memPools, this`blk,
               this`lists, this`spot, space, memSlots
      ensures var goal := old(Granting(L.AllocSize(cfg.hdrSize, alignment, usrSize), usrSize));
        Explained(st, goal, Reserves(), old(space.refusals), space.refusals)
      ensures st.NoMemory? ==> p == NULL && Calm() && Quiet(old(Snap()), Snap())
      ensures st.Ok? ==> Calm() && Allocated(old(Snap()), Snap(), h, p, alignment, usrSize)
      ensures st.Ok? && cfg.poison ==> IsFilled(space.mem, p, usrSize, cfg.poisonVal)
      ensures old(hi - lo) >= old(PoolNeed(L.AllocSize(cfg.hdrSize, alignment, usrSize), usrSize)) ==> st.Ok?
      ensures st.NoMemory? ==> Logs() == old(Logs())
      ensures st.Ok? ==> Logs() == Appended(old(Logs()), blk[h].slot, GetOf(blk[h].bin, usrSize))
      ensures st.NoMemory? ==> Takes(old(Snap()), Nothing, Snap())
      ensures st.Ok? ==> Takes(old(Snap()), Gain(h, p, Cells(space.mem, p, usrSize)), Snap())
      ensures st.Ok? ==> cfg.numSlots > 0 && h in blk && Rotates(usrSize, cfg.numSlots, old(racySlotRr), blk[h].slot, racySlotRr)
    {
      hide Inv, PoolsOk, SlotsOk, ListsOk, Shape, L.Servable, Allocated, Quiet, Takes, Granting;
      st, p, h := MemalignInt(alignment, usrSize);
    }

    method Malloc(usrSize: nat) returns (st: Status, p: Ptr, ghost h: Ptr)
      requires Calm() && L.Servable(L.AllocSize(cfg.hdrSize, L.MallocAlignment(usrSize), usrSize))
      modifies this`racySlotRr, this`currMemPool, this`lo, this`hi, this`pools, this`memPools, this`blk,
               this`lists, this`spot, space, memSlots
      ensures var goal := old(Granting(L.AllocSize(cfg.hdrSize, L.MallocAlignment(usrSize), usrSize), usrSize));
        Explained(st, goal, Reserves(), old(space.refusals), space.refusals)
      ensures st.NoMemory? ==> p == NULL && Calm() && Quiet(old(Snap()), Snap())
      ensures st.Ok? ==> Calm() && Allocated(old(Snap()), Snap(), h, p, L.MallocAlignment(usrSize), usrSize)
      ensures st.Ok? && cfg.poison ==> IsFilled(space.mem, p, usrSize, cfg.poisonVal)
      ensures old(hi - lo) >= old(PoolNeed(L.AllocSize(cfg.hdrSize, L.MallocAlignment(usrSize), usrSize), usrSize)) ==> st.Ok?
      ensures st.NoMemory? ==> Logs() == old(Logs())
      ensures st.Ok? ==> Logs() == Appended(old(Logs()), blk[h].slot, GetOf(blk[h].bin, usrSize))
      ensures st.Ok? ==> p % 8 == 0 && (usrSize > 8 ==> p % 16 == 0)
      ensures st.Ok? ==> h in blk && p + usrSize <= h + Pow2(blk[h].bin) < p + usrSize + (if usrSize > 8 then 16 else 8)
      ensures st.Ok? ==> L.SmallestBin(cfg.hdrSize, blk[h].bin, if usrSize > 8 then 16 else 8, usrSize)
      ensures st.NoMemory? ==> Takes(old(Snap()), Nothing, Snap())
      ensures st.Ok? ==> Takes(old(Snap()), Gain(h, p, Cells(space.mem, p, usrSize)), Snap())
      ensures st.Ok? ==> cfg.numSlots > 0 && h in blk && Rotates(usrSize, cfg.numSlots, old(racySlotRr), blk[h].slot, racySlotRr)
    {
      hide Inv, PoolsOk, SlotsOk, ListsOk, Shape, L.Servable, Allocated, Quiet, Takes, Granting, Explained;
      hide L.SmallestBin, L.BinFor, PoolNeed, GetOf, Appended, HeapOk, Rotates;
      ghost var s := Snap();
      st, p, h := MemalignInt(if usrSize > WORD_SIZE then 16 else 8, usrSize);
      if st == Ok {
        MallocPlaced(s, Snap(), h, p, usrSize);
      }
    }

    /** 0 for success, and otherwise the error number. */
    method PosixMemalign(alignment: nat, usrSize: nat) returns (st: Status, err: nat, p: Ptr, ghost h: Ptr)
      requires Calm()
      requires IsPow2(alignment) && alignment % WORD_SIZE == 0 ==> L.Servable(L.AllocSize(cfg.hdrSize, alignment, usrSize))
      modifies this`racySlotRr, this`currMemPool, this`lo, this`hi, this`pools, this`memPools, this`blk,
               this`lists, this`spot, space, memSlots
      ensures err == EINVAL ==> Reserves() == old(Reserves()) && space.refusals == old(space.refusals)
      ensures err != EINVAL ==>
        Explained(st, old(Granting(L.AllocSize(cfg.hdrSize, alignment, usrSize), usrSize)), Reserves(), old(space.refusals), space.refusals)
      ensures err in {0, EINVAL, ENOMEM} && (err == ENOMEM <==> st.NoMemory?)
      ensures err == EINVAL <==> !(IsPow2(alignment) && alignment % WORD_SIZE == 0)
      ensures err == EINVAL ==> st.Ok? && Calm() && Snap() == old(Snap())
      ensures err == ENOMEM ==> Calm() && Quiet(old(Snap()), Snap())
      ensures err != 0 ==> Takes(old(Snap()), Nothing, Snap())
      ensures err == 0 && !st.Aborted? ==> Calm() && Allocated(old(Snap()), Snap(), h, p, alignment, usrSize)
      ensures err == 0 && !st.Aborted? ==> Takes(old(Snap()), Gain(h, p, Cells(space.mem, p, usrSize)), Snap())
      ensures old(hi - lo) >= old(PoolNeed(L.AllocSize(cfg.hdrSize, alignment, usrSize), usrSize)) ==> st.Ok?
    {
      hide Inv, PoolsOk, SlotsOk, ListsOk, Shape, L.Servable, Allocated, Quiet, Takes, IsPow2, Granting;
      PoolLeft(NO_TILE) by { assert HeapOk(NO_TILE); }
      StillTakes(Snap());
      err, p, h, st := 0, NULL, NULL, Ok;
      if !IsPow2(alignment) || alignment % WORD_SIZE != 0 {
        return Ok, EINVAL, NULL, NULL;
      }
      st, p, h := Memalign(alignment, usrSize);
      if st == NoMemory {
        err := ENOMEM;
      }
    }

    method Calloc(nmemb: nat, usrSize: nat) returns (st: Status, p: Ptr, ghost h: Ptr)
      requires Calm() && L.Servable(L.AllocSize(cfg.hdrSize, WORD_SIZE, nmemb * usrSize))
      modifies this`racySlotRr, this`currMemPool, this`lo, this`hi, this`pools, this`memPools, this`blk,
               this`lists, this`spot, space, memSlots
      ensures var goal := old(Granting(L.AllocSize(cfg.hdrSize, WORD_SIZE, nmemb * usrSize), nmemb * usrSize));
        Explained(st, goal, Reserves(), old(space.refusals), space.refusals)
      ensures st.NoMemory? ==> p == NULL && Calm() && Quiet(old(Snap()), Snap())
      ensures st.NoMemory? ==> Takes(old(Snap()), Nothing, Snap()) && Logs() == old(Logs())
      ensures st.Ok? ==> h in blk && Placement(cfg.hdrSize, h, blk[h].bin, p, WORD_SIZE, nmemb * usrSize)
      ensures st.Ok? ==> Takes(old(Snap()), Gain(h, p, seq(nmemb * usrSize, _ => Byte(0))), Snap())
      ensures st.Ok? ==> Logs() == Appended(old(Logs()), blk[h].slot, GetOf(blk[h].bin, nmemb * usrSize))
      ensures old(hi - lo) >= old(PoolNeed(L.AllocSize(cfg.hdrSize, WORD_SIZE, nmemb * usrSize), nmemb * usrSize)) ==> st.Ok?
      ensures st.Ok? ==> Calm() && p % WORD_SIZE == 0 && Gained(old(Snap()), Snap(), h, p, seq(nmemb * usrSize, _ => Byte(0)))
      ensures st.Ok? ==> cfg.numSlots > 0 && h in blk && Rotates(nmemb * usrSize, cfg.numSlots, old(racySlotRr), blk[h].slot, racySlotRr)
    {
      hide Inv, PoolsOk, SlotsOk, ListsOk, Shape, L.Servable, Quiet, Gained, Stored, Evolves, Good, Client, SlopOk;
      hide SlopAt, Fill, Takes, PoolNeed, GetOf, Appended, Placement, Granting, Explained, Rotates;
      ghost var s := Snap();
      var totalSize := nmemb * usrSize;
      st, p, h := MemalignInt(WORD_SIZE, totalSize);
      if st != Ok {
        return;
      }
      ghost var t := Snap();
      AllocatedGains(s, t, h, p, WORD_SIZE, totalSize);
      AllocatedPlaced(s, t, h, p, WORD_SIZE, totalSize);
      FillStores(space.mem, p, totalSize, 0);
      StoreFill(p, totalSize, 0, h);
      GainStore(s, t, Snap(), h, p, Cells(t.mem, p, totalSize), seq(totalSize, _ => Byte(0)));
      GainedStored(s, t, Snap(), h, p, Cells(t.mem, p, totalSize), seq(totalSize, _ => Byte(0)));
    }

    /** memset, memcpy: nothing the slots know about is in client memory. */
    method PokeFill(a: Ptr, v: nat, n: nat)
      requires space.Valid() && space.CanUse(a, n) && SlotsOk()
      modifies space`mem
      ensures space.Valid() && SlotsOk() && space.mem == Fill(old(space.mem), a, n, v)
    {
      hide Tally, MemSlot.Tied, Fill;
      space.Memset(a, v, n);
    }

    method PokeCopy(dst: Ptr, src: Ptr, n: nat)
      requires space.Valid() && space.CanUse(dst, n) && space.CanUse(src, n) && SlotsOk()
      requires dst + n <= src || src + n <= dst
      modifies space`mem
      ensures space.Valid() && SlotsOk() && Mapped(old(space.mem), src, n) && space.mem == Copy(old(space.mem), dst, src, n)
    {
      hide Tally, MemSlot.Tied, Copy;
      space.Memcpy(dst, src, n);
    }

    /** memset over a whole live allocation. */
    method StoreFill(p: Ptr, n: nat, v: nat, ghost h: Ptr)
      requires Calm() && LiveAt(Snap(), p, h) && blk[h].size == n
      modifies space`mem
      ensures Takes(old(Snap()), Store(h, p, seq(n, _ => Byte(v))), Snap())
      ensures Calm() && Stored(old(Snap()), Snap(), h, p, seq(n, _ => Byte(v)))
    {
      hide Inv, PoolsOk, ListsOk, SlotsOk, Shape, Stored, Fill, Cells, Takes;
      LiveFacts(Snap(), h);
      FillStores(space.mem, p, n, v);
      StoreInv(Snap(), Fill(space.mem, p, n, v), h);
      StoreTakes(Snap(), Fill(space.mem, p, n, v), h);
      PokeFill(p, v, n);
    }

    /** The client writes one byte of a live allocation. */
    method ClientWrite(p: Ptr, off: nat, v: nat, ghost h: Ptr)
      requires Calm() && LiveAt(Snap(), p, h) && off < blk[h].size
      requires p in Client(Snap()) && |Client(Snap())[p]| == blk[h].size
      modifies space`mem
      ensures Takes(old(Snap()), Store(h, p, old(Client(Snap()))[p][off := Byte(v)]), Snap())
      ensures Calm() && Stored(old(Snap()), Snap(), h, p, old(Client(Snap()))[p][off := Byte(v)])
    {
      hide Inv, PoolsOk, ListsOk, SlotsOk, Shape, Stored, Client, Sound, Apart, Fill, Cells, Takes;
      ghost var s := Snap();
      LiveFacts(s, h);
      InvGood(s);
      ClientAt(s, p, h);
      ByteStores(space.mem, p, blk[h].size, off, v);
      StoreInv(s, Fill(space.mem, p + off, 1, v), h);
      StoreTakes(s, Fill(space.mem, p + off, 1, v), h);
      PokeFill(p + off, v, 1);
    }

    /** The program writes one byte too far: behind the data of an allocation, short of its guard page. */
    method ClientOverrun(p: Ptr, a: Ptr, v: nat, ghost h: Ptr)
      requires Calm() && LiveAt(Snap(), p, h) && p + blk[h].size <= a < h + Pow2(blk[h].bin)
      modifies space`mem
      ensures Calm() && Snap() == Stray(old(Snap()), a, v)
    {
      hide Inv, PoolsOk, ListsOk, SlotsOk, Shape, Fill;
      LiveFacts(Snap(), h);
      StrayInv(Snap(), p, h, a, v);
      OneByte(space.mem, a, v);
      PokeFill(a, v, 1);
    }

    /** memcpy from one live allocation to another. */
    method StoreCopy(dst: Ptr, src: Ptr, n: nat, ghost g: Ptr, ghost h: Ptr)
      requires Calm() && LiveAt(Snap(), dst, g) && LiveAt(Snap(), src, h) && g != h
      requires n <= blk[g].size && n <= blk[h].size
      modifies space`mem
      ensures Calm() && Mapped(old(space.mem), src, n) && Mapped(space.mem, dst, blk[g].size)
      ensures Takes(old(Snap()), Store(g, dst, Cells(space.mem, dst, blk[g].size)), Snap())
      ensures Stored(old(Snap()), Snap(), g, dst, Cells(space.mem, dst, blk[g].size))
      ensures Cells(space.mem, dst, blk[g].size)[..n] == Cells(old(space.mem), src, n)
    {
      hide Inv, PoolsOk, ListsOk, SlotsOk, Shape, Stored, Cells, Copy, Takes;
      LiveFacts(Snap(), g);
      LiveFacts(Snap(), h);
      LiveApart(Snap(), g, h);
      CopyStores(space.mem, dst, src, n, blk[g].size);
      StoreInv(Snap(), Copy(space.mem, dst, src, n), g);
      StoreTakes(Snap(), Copy(space.mem, dst, src, n), g);
      PokeCopy(dst, src, n);
    }

    /** What `realloc` does once it has the new allocation. */
    method CopyAndFree(newBuf: Ptr, origBuf: Ptr, newUsrSize: nat, ghost g: Ptr, ghost h: Ptr)
      returns (st: Status, ghost cs: seq<Cell>, ghost mid: State)
      requires Calm() && LiveAt(Snap(), newBuf, g) && LiveAt(Snap(), origBuf, h) && g != h && blk[g].size == newUsrSize
      modifies this`blk, this`lists, space`mem, space`noAccess, memSlots, Rings(), Arrays()
      ensures st == if SlopAt(old(space.mem), h, old(blk[h])) then Ok else Aborted
      ensures |cs| == newUsrSize && Copied(old(Snap()), origBuf, Min(newUsrSize, old(blk[h]).size), cs)
      ensures Inv(mid) && Settled(mid.blk, NULL)
      ensures Stored(old(Snap()), mid, g, newBuf, cs) && Takes(old(Snap()), Store(g, newBuf, cs), mid)
      ensures st.Ok? ==> Calm() && Freed(mid, Snap(), h, if cfg.useDelay then Delayed else Avail)
      ensures st.Ok? ==> Takes(mid, Lose(h, origBuf, if cfg.useDelay then Delayed else Avail), Snap())
      ensures st.Ok? ==> g in blk && blk[g] == old(blk[g]) && mid.blk == old(blk)
      ensures st.Ok? ==> Logs() == Appended(old(Logs()), old(blk[h].slot), PutOf(old(blk[h])))
      ensures st.Ok? ==> Puts() == if cfg.useDelay then Appended(old(Puts()), old(blk[h].slot), h) else old(Puts())
    {
      hide Inv, Sound, Apart, PoolsOk, SlotsOk, ListsOk, Shape, Stored, Freed, Evolves;
      hide Client, SlopOk, SlopAt, Cells, Takes, PutOf, Settled;
      ghost var t := Snap();
      GoodNow(t);
      BystanderContents(t, origBuf, h);
      var hdr := HeaderBehind(origBuf, h);
      StoreCopy(newBuf, origBuf, Min(newUsrSize, space.LoadHdr(hdr).usrDataSize), g, h);
      mid := Snap();
      cs := Cells(mid.mem, newBuf, newUsrSize);
      StoredEvolves(t, mid, g, newBuf, cs);
      BystanderSlop(t, mid, g, h);
      st := Free(origBuf, h);
      if st == Ok {
        FreedKeeps(mid, Snap(), h, if cfg.useDelay then Delayed else Avail, g);
      }
    }

    /** `realloc` of NULL or of a live pointer, in block h.  It is two effects, with the state mid in between. */
    method Realloc(origBuf: Ptr, newUsrSize: nat, ghost h: Ptr)
      returns (st: Status, newBuf: Ptr, ghost g: Ptr, ghost cs: seq<Cell>, ghost mid: State)
      requires Calm() && L.Servable(L.AllocSize(cfg.hdrSize, WORD_SIZE, newUsrSize))
      requires origBuf == NULL || LiveAt(Snap(), origBuf, h)
      modifies this`racySlotRr, this`currMemPool, this`lo, this`hi, this`pools, this`memPools, this`blk,
               this`lists, this`spot, space, memSlots, Rings(), Arrays()
      ensures !st.Segv?
      ensures space.refusals == old(space.refusals) + (if st.NoMemory? then 1 else 0)
      ensures st.Aborted? <==>
        currMemPool == MAX_MEM_POOLS || (!st.NoMemory? && origBuf != NULL && !SlopAt(old(space.mem), h, old(blk[h])))
      ensures var goal := old(Granting(L.AllocSize(cfg.hdrSize, WORD_SIZE, newUsrSize), newUsrSize));
        && (st.Ok? ==> Reserves() == goal) && (st.NoMemory? ==> Reserves().last < goal.last)
        && (!st.NoMemory? ==>
              (st.Aborted? <==> goal.last >= MAX_MEM_POOLS || (origBuf != NULL && !SlopAt(old(space.mem), h, old(blk[h])))))
      ensures old(hi - lo) >= old(PoolNeed(L.AllocSize(cfg.hdrSize, WORD_SIZE, newUsrSize), newUsrSize)) ==>
        !st.NoMemory? && currMemPool != MAX_MEM_POOLS
      ensures st.NoMemory? ==> newBuf == NULL && Calm() && Quiet(old(Snap()), Snap())
      ensures st.NoMemory? ==> Takes(old(Snap()), Nothing, Snap()) && Logs() == old(Logs())
      ensures st.Ok? ==> Calm() && |cs| == newUsrSize && newBuf % WORD_SIZE == 0
      ensures st.Ok? ==> g in blk && Placement(cfg.hdrSize, g, blk[g].bin, newBuf, WORD_SIZE, newUsrSize)
      ensures st.Ok? ==> Inv(mid) && Settled(mid.blk, NULL) && Takes(old(Snap()), Gain(g, newBuf, cs), mid)
      ensures st.Ok? && origBuf == NULL ==> mid == Snap()
      ensures st.Ok? && origBuf != NULL ==>
        Takes(mid, Lose(h, origBuf, if cfg.useDelay then Delayed else Avail), Snap())
      ensures st.Ok? ==>
        Puts() == if cfg.useDelay && origBuf != NULL then Appended(old(Puts()), old(blk[h].slot), h) else old(Puts())
      ensures st.Ok? ==> Logs() == LogsAfter(old(Logs()), g, newUsrSize, origBuf != NULL, h, old(blk))
      ensures st.Ok? && origBuf == NULL ==> Gained(old(Snap()), Snap(), g, newBuf, cs)
      ensures st.Ok? && origBuf != NULL ==> SlopAt(old(space.mem), h, old(blk[h]))
      ensures st.Ok? && origBuf != NULL ==> Moved(old(Snap()), Snap(), h, origBuf, newBuf, cs, Min(newUsrSize, old(blk[h]).size))
    {
      hide Inv, Sound, Apart, PoolsOk, SlotsOk, ListsOk, Shape, L.Servable, Quiet, Gained, Stored, Freed, Moved, Evolves;
      hide Client, SlopOk, SlopAt, Cells, Takes, PoolNeed, GetOf, PutOf, Appended, Placement, Settled, Granting;
      hide L.AllocSize;
      ghost var s := Snap();
      cs, mid := [], s;
      st, newBuf, g := MemalignInt(WORD_SIZE, newUsrSize);
      if st != Ok {
        return;
      }
      ghost var t := Snap();
      ghost var cs0 := Cells(t.mem, newBuf, newUsrSize);
      AllocatedGains(s, t, g, newBuf, WORD_SIZE, newUsrSize);
      AllocatedPlaced(s, t, g, newBuf, WORD_SIZE, newUsrSize);
      cs, mid := cs0, t;
      if origBuf == NULL {
        return;
      }
      BystanderLives(s, t, g, h, origBuf);
      st, cs, mid := CopyAndFree(newBuf, origBuf, newUsrSize, g, h);
      if st == Ok {
        GainStore(s, t, mid, g, newBuf, cs0, cs);
        GainedStored(s, t, mid, g, newBuf, cs0, cs);
        MovedNow(s, mid, Snap(), g, newBuf, cs, h, origBuf, if cfg.useDelay then Delayed else Avail,
                 Min(newUsrSize, s.blk[h].size));
      }
    }

    /** The histories after a `realloc` that put newUsrSize bytes into block g and gave h back. */
    ghost function LogsAfter(logs: seq<Log>, g: Ptr, newUsrSize: nat, gaveBack: bool, h: Ptr, blk0: map<Ptr, Block>): seq<Log>
      reads this`blk
    {
      if g !in blk then logs
      else
        var got := Appended(logs, blk[g].slot, GetOf(blk[g].bin, newUsrSize));
        if gaveBack && h in blk0 then Appended(got, blk0[h].slot, PutOf(blk0[h])) else got
    }

    /** The header a live pointer leads back to. */
    method HeaderBehind(p: Ptr, ghost h: Ptr) returns (hdr: Ptr)
      requires Calm() && LiveAt(Snap(), p, h)
      ensures hdr == h && IsHdr(space.mem, h) && space.CanUse(h, ELM_HDR_BYTES) && space.mem[h].hdr.usrDataSize == blk[h].size
    {
      hide Inv, Sound, Apart, PoolsOk, SlotsOk, ListsOk, Shape, IsWord, IsHdr, Reachable;
      InvGood(Snap());
      LiveUnique(Snap(), p, h);
      IssuedFacts(Snap(), p, h);
      LiveFacts(Snap(), h);
      HdrUsable(space, h);
      LoadsBack(space, p - WORD_SIZE, h);
      hdr := space.LoadWord(p - WORD_SIZE);
    }

    // ---------------------------------------------------------------- what the counters say

    /** Carved = free + in use + delayed, for every slot and bin, in the slot's own counters. */
    lemma Conserved(slot: MemSlot, b: nat)
      requires Calm() && IsSlot(slot) && b < MAX_ALLOC_POWER
      ensures |slot.memBins| == MAX_ALLOC_POWER && slot.memBins[b].frees <= slot.memBins[b].allocs
      ensures |BlocksOf(blk, slot.num, b)| ==
        slot.memBins[b].numFree + (slot.memBins[b].allocs - slot.memBins[b].frees) + |DelayedOf(blk, slot.num, b)|
    {
      hide Inv, PoolsOk, ListsOk, Tally, RingTie, SumSizes;
      HeapInv(NO_TILE);
      InvOwned(Snap());
      assert memSlots[slot.num].Tied(blk, lists);
      BinFacts(slot, blk, lists, b);
      Census(Snap(), slot.num, b);
    }

    /** Between calls, and after any of them, no bin from 12 to 17 has fewer than 99 free blocks. */
    lemma NeverLow(slot: MemSlot, b: nat)
      requires Calm() && IsSlot(slot) && 12 <= b < 18
      ensures |slot.memBins| == MAX_ALLOC_POWER && slot.memBins[b].numFree >= 99
      ensures FreeList(slot.num, b) in lists && |lists[FreeList(slot.num, b)]| >= 99
    {
      hide Inv, PoolsOk, ListsOk, Tally, RingTie;
      assert memSlots[slot.num].Tied(blk, lists) && InStock(memSlots[slot.num].memBins);
      BinFacts(slot, blk, lists, b);
    }

    /** HWMUsrBytes is the maximum over the slot's history of requested minus freed bytes, which never
        underflows; dumps are more than the interval apart, and the mark last dumped at is never further
        behind than that. */
    lemma HighWaterMarks(slot: MemSlot)
      requires Valid() && IsSlot(slot)
      ensures slot.totalUserFreedBytes <= slot.totalUserRequestedBytes
      ensures forall i | 0 <= i <= |slot.log| :: Net(slot.log[..i]) <= slot.HWMUsrBytes
      ensures exists i | 0 <= i <= |slot.log| :: Net(slot.log[..i]) == slot.HWMUsrBytes
      ensures slot.dumps * (cfg.dumpInterval + 1) <= slot.lastHWMUsrBytesDump <= slot.HWMUsrBytes
      ensures slot.HWMUsrBytes <= slot.lastHWMUsrBytesDump + cfg.dumpInterval
    {
      hide HeapOk, MemSlot.Tied;
      assert memSlots[slot.num].Tied(blk, lists) && memSlots[slot.num].Counted(cfg.dumpInterval);
      NetNonNegative(slot, blk, lists, cfg.dumpInterval);
      HighWaterIsMaximum(slot.log);
      DumpSpacing(slot.log, cfg.dumpInterval);
    }

    // ---------------------------------------------------------------- quarantine

    /** Which of a slot's blocks are in quarantine: those whose put, the (k+1)-th of the slot, is not yet due. */
    lemma QuarantinedUntil(slot: MemSlot, h: Ptr)
      requires Valid() && IsSlot(slot)
      ensures h in blk && blk[h].own.Delayed? && blk[h].slot == slot.num <==>
        exists k | 0 <= k < |slot.delay.puts| :: slot.delay.puts[k] == h && |slot.delay.puts| < ReleaseAt(cfg.delayCap, k + 1)
    {
      hide Inv, PoolsOk, ListsOk, Tally, FreeTies, UsedTies, ReleaseAt, MemFreeDelay.Contents;
      ghost var puts, cap := slot.delay.puts, cfg.delayCap;
      assert memSlots[slot.num].Tied(blk, lists);
      ListFacts(Snap(), DelayRing(slot.num));
      ghost var r := Released(cap, |puts|);
      assert h in slot.delay.Contents() <==> exists k | r <= k < |puts| :: puts[k] == h;
      forall k {:trigger puts[k]} | 0 <= k < |puts| ensures r <= k <==> |puts| < ReleaseAt(cap, k + 1) {
        QuarantineWindow(cap, k + 1, |puts|);
      }
    }

    /** Until the (cap/4 + 1)-th put into its slot after its own, a freed block is out of reach, and no
        allocation is granted it. */
    lemma NotReissued(slot: MemSlot, k: nat, t: State, hdr: Ptr, i: nat, b: nat, size: nat)
      requires Valid() && IsSlot(slot) && k < |slot.delay.puts| < k + 1 + cfg.delayCap / 4 + 1
      requires Granted(Snap(), t, hdr, i, b, size)
      ensures var h := slot.delay.puts[k];
        h in blk && blk[h].own.Delayed? && Blocked(space.noAccess, h, Span(blk[h])) && h != hdr
    {
      hide Inv, PoolsOk, ListsOk, SlotsOk, Evolves, ReleaseAt, Settled;
      ghost var h := slot.delay.puts[k];
      QuarantineWindow(cfg.delayCap, k + 1, |slot.delay.puts|);
      QuarantinedUntil(slot, h);
      BlockFacts(Snap(), h);
    }

    // ---------------------------------------------------------------- the exit report

    /** The leak records of one in-use list: the user size of each of its blocks. */
    method WalkInUse(head: Ptr, ghost l: ListId) returns (sizes: seq<nat>)
      requires Calm() && l.UsedList? && l in lists && head == First(lists[l])
      ensures |sizes| == |lists[l]| && forall i | 0 <= i < |sizes| :: lists[l][i] in blk && sizes[i] == blk[lists[l][i]].size
      ensures SumSeq(sizes) == SumSizes(blk, lists[l])
    {
      hide Inv, PoolsOk, SlotsOk, Shape, ListsOk;
      ListReady(Snap(), l);
      var p := head;
      sizes := [];
      ghost var k := 0;
      while p != NULL
        invariant k <= |lists[l]| && p == At(lists[l], k)
        invariant |sizes| == k && forall i | 0 <= i < k :: sizes[i] == blk[lists[l][i]].size
        decreases |lists[l]| - k
      {
        assert k < |lists[l]| && p == lists[l][k] && LinkedAt(space.mem, lists[l], k);
        UsedFacts(Snap(), p, l);
        sizes := sizes + [space.LoadHdr(p).usrDataSize];
        p := space.LoadHdr(p).next;
        k := k + 1;
      }
      assert k == |lists[l]|;
      SizesAdd(blk, lists[l], sizes);
    }

    /** One bin's part of the report: its line of the table and its leak records. */
    method ReportBin(slot: MemSlot, i: nat, t: Totals) returns (u: Totals, sizes: seq<nat>)
      requires Calm() && IsSlot(slot) && i < MAX_ALLOC_POWER && t == SlotTotals(slot.log, i, PAGE_SIZE)
      ensures u == SlotTotals(slot.log, i + 1, PAGE_SIZE)
      ensures |sizes| == (u.allocs - t.allocs) - (u.frees - t.frees)
      ensures SumSeq(sizes) == NetInBin(slot.log, i)
    {
      hide Inv, PoolsOk, Shape, ListsOk, Tally, MemSlot.Tied, SlotTotals, Sized;
      assert memSlots[slot.num].Tied(blk, lists) && memSlots[slot.num].Counted(cfg.dumpInterval);
      CountFacts(slot, cfg.dumpInterval);
      BinFacts(slot, blk, lists, i);
      SlotTotalsStep(slot.log, i, PAGE_SIZE);
      u := BinLine(t, slot.memBins[i], slot.memHisto[i], i);
      sizes := WalkInUse(slot.memBins[i].headInUse, UsedList(slot.num, i));
    }

    /** One slot's part of the report. */
    method ReportSlot(slot: MemSlot) returns (t: Totals, records: seq<nat>)
      requires Calm() && IsSlot(slot)
      ensures t == SlotTotals(slot.log, MAX_ALLOC_POWER, PAGE_SIZE) && Ordered(t)
      ensures |records| == t.allocs - t.frees && SumSeq(records) == t.requested - t.freed
      ensures forall line :: Entry(t, line) == ShareSum(slot.log, line, PAGE_SIZE)
    {
      hide Inv, PoolsOk, Shape, ListsOk, Tally, MemSlot.Tied, SlotTotals, NetSum, Sized, Entry, ShareSum, Ordered;
      assert memSlots[slot.num].Counted(cfg.dumpInterval);
      CountFacts(slot, cfg.dumpInterval);
      SlotTotalsStart(slot.log, PAGE_SIZE);
      t := NOTHING.(requested := slot.totalUserRequestedBytes, freed := slot.totalUserFreedBytes);
      records := [];
      NetSumZero(slot.log);
      for i := 0 to MAX_ALLOC_POWER
        invariant t == SlotTotals(slot.log, i, PAGE_SIZE)
        invariant |records| == t.allocs - t.frees && SumSeq(records) == NetSum(slot.log, i)
      {
        NetSumStep(slot.log, i);
        var sizes;
        t, sizes := ReportBin(slot, i, t);
        SumSeqConcat(records, sizes);
        records := records + sizes;
      }
      NetAddsUp(slot.log, MAX_ALLOC_POWER);
      SlotOrdered(slot.log, MAX_ALLOC_POWER, PAGE_SIZE);
      RequestedStays(slot.log, MAX_ALLOC_POWER, PAGE_SIZE);
      TotalsMean(slot.log, MAX_ALLOC_POWER, PAGE_SIZE);
    }

    ghost function ExpectedTotals(n: nat): Totals
      requires n <= |memSlots|
      reads memSlots
    {
      if n == 0 then NOTHING else Plus(ExpectedTotals(n - 1), SlotTotals(memSlots[n - 1].log, MAX_ALLOC_POWER, PAGE_SIZE))
    }

    /** All allocations and frees of the first n slots. */
    ghost function History(n: nat): Log
      requires n <= |memSlots|
      reads memSlots
    {
      if n == 0 then [] else History(n - 1) + memSlots[n - 1].log
    }

    /** The size class of each is the least power of two that covers its size. */
    lemma ClassesExact(slot: MemSlot, e: Event)
      requires Calm() && IsSlot(slot) && e in slot.log
      ensures e.size <= Pow2(e.cls) && forall k: nat :: e.size <= Pow2(k) ==> e.cls <= k
    {
      hide Inv, PoolsOk, Shape, ListsOk, MemSlot.Tied, Pow2, L.Servable, SizeBin;
      assert memSlots[slot.num].Counted(cfg.dumpInterval);
      ClassIsTight(e.size);
    }

    lemma {:induction false} NothingAllocated(n: nat)
      requires n <= |memSlots| && forall i | 0 <= i < |memSlots| :: memSlots[i].log == []
      ensures ExpectedTotals(n).allocs == 0
    {
      hide SlotTotals;
      if n != 0 {
        NothingAllocated(n - 1);
        EmptySlotTotals(MAX_ALLOC_POWER, PAGE_SIZE);
      }
    }

    /** The accounting part of `onExitHelper`, between calls. */
    method OnExitHelper() returns (t: Totals, records: seq<nat>, r: Report)
      requires Calm()
      ensures t == ExpectedTotals(|memSlots|)
      ensures forall line :: Entry(t, line) == ShareSum(History(|memSlots|), line, PAGE_SIZE)
      ensures r.DividesByZero? <==> t.allocs == 0
      ensures r.Efficiency? ==> Floor(r.guarded, 100 * t.requested, t.allocedGuarded)
      ensures r.Efficiency? ==> Floor(r.actual, 100 * t.requested, t.alloced)
      ensures r.Efficiency? ==> Floor(r.theoretical, 100 * t.requested, t.pow2)
      ensures r.Efficiency? ==> r.guarded <= r.actual <= r.theoretical <= 100
      ensures |records| == t.allocs - t.frees && SumSeq(records) == t.requested - t.freed
    {
      hide Inv, PoolsOk, ListsOk, Tally, MemSlot.Tied, SlotTotals, Ordered, Entry, Floor, Percent;
      hide ShareSum, Settled, InStock;
      t, records := NOTHING, [];
      NothingEntries(PAGE_SIZE);
      NothingOrdered();
      for i := 0 to |memSlots|
        invariant t == ExpectedTotals(i) && Ordered(t)
        invariant forall line :: Entry(t, line) == ShareSum(History(i), line, PAGE_SIZE)
        invariant |records| == t.allocs - t.frees && SumSeq(records) == t.requested - t.freed
      {
        var u, s := ReportSlot(memSlots[i]);
        PlusOrdered(t, u);
        PlusEntries(t, u);
        forall line { ShareSumConcat(History(i), memSlots[i].log, line, PAGE_SIZE); }
        SumSeqConcat(records, s);
        t, records := Plus(t, u), records + s;
      }
      EfficiencyReport(t);
      r := Percent(t);
      if r.Efficiency? {
        PercentFloors(t);
      }
    }
  }

  /** A process that never allocates: the library is loaded and unloaded.  Its report divides by zero. */
  method IdleProcess(cfg: Config) returns (st: Status, r: Report)
    requires ValidConfig(cfg)
    ensures st.Ok? ==> r.DividesByZero?
  {
    hide Inv, GuardRails.Valid, GuardRails.Calm, GuardRails.HeapOk, GuardRails.SlotsOk, GuardRails.Rings, GuardRails.Arrays;
    hide BinsUpTo, Stocked, StockCost, Times;
    var rails := new GuardRails(cfg);
    st := rails.Initialize();
    r := DividesByZero;
    if st == Ok {
      rails.NothingAllocated(|rails.memSlots|);
      var t, records;
      t, records, r := rails.OnExitHelper();
    }
  }

  /** What one bin adds to the report. */
  function BinLine(t: Totals, bin: MemBin, histo: MemHisto, i: nat): Totals {
    t.(
      pow2 := t.pow2 + histo.allocs * Pow2(i),
      alloced := t.alloced + bin.allocs * Pow2(i),
      allocedGuarded := t.allocedGuarded + bin.allocs * (Pow2(i) + PAGE_SIZE),
      freedGuarded := t.freedGuarded + bin.frees * (Pow2(i) + PAGE_SIZE),
      allocs := t.allocs + bin.allocs,
      frees := t.frees + bin.frees)
  }

  lemma OneByte(m: Mem, a: Ptr, v: nat)
    requires a in m
    ensures Memory.Fill(m, a, 1, v) == m[a := Byte(v)]
  {
  }

  lemma NetSumZero(log: Log)
    ensures NetSum(log, 0) == 0
  {
  }

  lemma NetSumStep(log: Log, n: nat)
    ensures NetSum(log, n + 1) == NetSum(log, n) + NetInBin(log, n)
  {
  }

  lemma RequestedStays(log: Log, n: nat, page: nat)
    ensures SlotTotals(log, n, page).requested == GotBytes(log) && SlotTotals(log, n, page).freed == PutBytes(log)
  {
  }

  lemma NothingEntries(page: nat)
    ensures forall line :: Entry(NOTHING, line) == ShareSum([], line, page)
  {
  }

  lemma NothingOrdered()
    ensures Ordered(NOTHING)
  {
  }

  lemma PlusOrdered(a: Totals, b: Totals)
    requires Ordered(a) && Ordered(b)
    ensures Ordered(Plus(a, b))
  {
  }

  /** Between calls, every block on an in-use list is live and its header has the size it was given. */
  lemma UsedFacts(s: State, h: Ptr, l: ListId)
    requires Inv(s) && Settled(s.blk, NULL) && l.UsedList? && h in s.blk && Home(s.blk[h]) == l
    ensures s.blk[h].own.Used? && IsHdr(s.mem, h) && s.mem[h].hdr.usrDataSize == s.blk[h].size
  {
    ZoneFacts(s);
    BlockFacts(s, h);
  }

  lemma {:induction false} SizesAdd(blk: map<Ptr, Block>, s: seq<Ptr>, sizes: seq<nat>)
    requires |sizes| == |s| && forall i | 0 <= i < |s| :: s[i] in blk && sizes[i] == blk[s[i]].size
    ensures SumSeq(sizes) == SumSizes(blk, s)
  {
    if s != [] {
      SizesAdd(blk, s[1..], sizes[1..]);
    }
  }

  function Outcome(v: Verdict): Status {
    match v
    case Frees => Ok
    case Faults => Segv
    case Aborts => Aborted
  }

  lemma LeftSettles(s: State, t: State, i: nat, b: nat, k: nat, h: Ptr)
    requires Left(s, t, i, b, k, h) && Settled(s.blk, h)
    ensures Settled(t.blk, h) && h in s.blk && h in t.blk && t.blk[h] == s.blk[h].(own := Loose)
  {
  }

  lemma QueuedSettles(s: State, t: State, i: nat, h: Ptr)
    requires Queued(s, t, i, h) && Settled(s.blk, h)
    ensures Settled(t.blk, NULL) && h in s.blk && h in t.blk && t.blk[h] == s.blk[h].(own := Delayed)
  {
    forall x | x in t.blk && x != h ensures t.blk[x].own.Avail? || t.blk[x].own.Used? || t.blk[x].own.Delayed? {
      assert DrainedAt(s.blk[x], t.blk[x], i);
    }
  }

  lemma OthersTrans(s: State, t: State, u: State, i: nat)
    requires OtherSlotsSame(s, t, i) && OtherSlotsSame(t, u, i)
    ensures OtherSlotsSame(s, u, i)
  {
    forall j: nat | j != i ensures SlotSame(s, u, j) {
      assert SlotSame(s, t, j) && SlotSame(t, u, j);
    }
  }

  /** The bins with one more free counted in bin b. */
  function Bump(bins: seq<MemBin>, b: nat): seq<MemBin> {
    if b < |bins| then bins[b := bins[b].(frees := bins[b].frees + 1)] else bins
  }

  lemma FreedTies(s: State, i: nat, b: nat, h: Ptr, bins: seq<MemBin>, bins': seq<MemBin>, log: Log, ring: seq<Ptr>, ringBins: seq<nat>)
    requires Owned(s) && b < MAX_ALLOC_POWER && h in s.blk && FreeList(i, b) in s.lists
    requires AllTies(s.blk, s.lists, i, Bump(bins, b), log, ring, ringBins)
    requires |bins| == MAX_ALLOC_POWER && bins' == bins[b := bins[b].(headFree := h, numFree := bins[b].numFree + 1)]
    ensures var t := Attach(s, FreeList(i, b), h, Avail);
      AllTies(t.blk, t.lists, i, Bump(bins', b), log, ring, ringBins) && OtherSlotsSame(s, t, i) && t.blk == Reown(s.blk, h, Avail)
  {
    var t := Attach(s, FreeList(i, b), h, Avail);
    assert FreeTie(s.lists, i, b, Bump(bins, b)[b]);
    RefillTies(s, t, i, b, Bump(bins, b), Bump(bins', b), log, ring, ringBins);
  }

  lemma CountedFree(lists: map<ListId, seq<Ptr>>, i: nat, bins: seq<MemBin>, bins': seq<MemBin>, b: nat)
    requires SameUse(bins, bins') && FreeTies(lists, i, bins') && b < |bins|
    ensures |bins'| == |bins|
    ensures SameUse(Bump(bins, b), Bump(bins', b)) && FreeTies(lists, i, Bump(bins', b))
  {
    var c' := Bump(bins', b);
    forall x | 0 <= x < MAX_ALLOC_POWER ensures FreeTie(lists, i, x, c'[x]) {
      assert FreeTie(lists, i, x, bins'[x]);
    }
  }

  lemma LeftHead(s: State, t: State, i: nat, b: nat, k: nat, h: Ptr)
    requires Left(s, t, i, b, k, h)
    ensures UsedList(i, b) in s.lists && k < |s.lists[UsedList(i, b)]| && UsedList(i, b) in t.lists
    ensures t.lists[UsedList(i, b)] == Without(s.lists[UsedList(i, b)], k)
  {
  }

  /** What `putBuf` relies on. */
  lemma LeavingFacts(s: State, h: Ptr)
    requires Inv(s) && h in s.blk && s.blk[h].own.Leaving?
    ensures IsHdr(s.mem, h) && Reachable(s.noAccess, h, ELM_HDR_BYTES)
    ensures s.mem[h].hdr.usrDataSize == s.blk[h].size && s.mem[h].hdr.binNum == s.blk[h].bin && s.mem[h].hdr.slotNum == s.blk[h].slot
    ensures L.Servable(s.blk[h].size) && SizeBin(s.blk[h].size) <= s.blk[h].bin < MAX_ALLOC_POWER
    ensures UsedList(s.blk[h].slot, s.blk[h].bin) in s.lists && h in s.lists[UsedList(s.blk[h].slot, s.blk[h].bin)]
  {
    BlockFacts(s, h);
    BlockReady(s, h);
    ListFacts(s, UsedList(s.blk[h].slot, s.blk[h].bin));
    SizeFits(s.blk[h].size, s.blk[h].bin);
  }

  lemma QueuedAfter(s: State, t: State, u: State, i: nat, h: Ptr)
    requires Drained(s, t, i) && h in s.blk && s.blk[h].own.Loose?
    requires s.blk[h].slot == i && DelayRing(i) in t.lists && h in t.blk
    requires u == Quarantine(t, DelayRing(i), h, t.blk[h].bin)
    ensures Queued(s, u, i, h)
  {
    assert DrainedAt(s.blk[h], t.blk[h], i);
  }

  lemma LooseStays(s: State, t: State, i: nat, h: Ptr)
    requires Drained(s, t, i) && h in s.blk && s.blk[h].own.Loose?
    ensures h in t.blk && t.blk[h] == s.blk[h]
    ensures Reachable(s.noAccess, h, Pow2(s.blk[h].bin)) ==> Reachable(t.noAccess, h, Pow2(s.blk[h].bin))
  {
    assert DrainedAt(s.blk[h], t.blk[h], i);
  }

  lemma BlockPages(s: State, h: Ptr)
    requires Inv(s) && h in s.blk
    ensures h % PAGE_SIZE == 0 && Pow2(s.blk[h].bin) % PAGE_SIZE == 0 && Mapped(s.mem, h, Pow2(s.blk[h].bin))
  {
    BlockFacts(s, h);
    Pow2Pages(s.blk[h].bin);
  }

  lemma DrainedRefl(s: State, i: nat)
    ensures Drained(s, s, i)
  {
  }

  lemma SameUseRefl(bins: seq<MemBin>)
    ensures SameUse(bins, bins)
  {
  }

  lemma SameUseKeeps(bins: seq<MemBin>, bins': seq<MemBin>)
    requires SameUse(bins, bins')
    ensures NoFewer(bins, bins')
  {
  }

  lemma SameUseTrans(a: seq<MemBin>, b: seq<MemBin>, c: seq<MemBin>)
    requires SameUse(a, b) && SameUse(b, c)
    ensures SameUse(a, c)
  {
  }

  lemma RingHead(blk: map<Ptr, Block>, lists: map<ListId, seq<Ptr>>, i: nat, ring: seq<Ptr>, bins: seq<nat>)
    requires RingTie(blk, lists, i, ring, bins) && ring != []
    ensures DelayRing(i) in lists && lists[DelayRing(i)] == ring && ring[0] in blk && bins != [] && blk[ring[0]].bin == bins[0]
  {
  }

  lemma LooseNow(s: State, l: ListId, h: Ptr, b: nat)
    requires h in s.blk && l in s.lists && !l.FreeList?
    ensures var t := Unquarantine(s, l, h, b); h in t.blk && t.blk[h] == s.blk[h].(own := Loose)
    ensures forall f | f in s.lists && f.FreeList? :: f in Unquarantine(s, l, h, b).lists && Unquarantine(s, l, h, b).lists[f] == s.lists[f]
  {
  }

  lemma FreeTiesAt(lists: map<ListId, seq<Ptr>>, i: nat, bins: seq<MemBin>, b: nat)
    requires FreeTies(lists, i, bins) && b < MAX_ALLOC_POWER
    ensures |bins| == MAX_ALLOC_POWER && FreeTie(lists, i, b, bins[b])
  {
  }

  lemma FreeTieThere(lists: map<ListId, seq<Ptr>>, i: nat, b: nat, bin: MemBin)
    requires FreeTie(lists, i, b, bin)
    ensures FreeList(i, b) in lists
  {
  }

  lemma FreeTieKept(lists: map<ListId, seq<Ptr>>, lists': map<ListId, seq<Ptr>>, i: nat, b: nat, bin: MemBin)
    requires FreeTie(lists, i, b, bin) && FreeList(i, b) in lists' && lists'[FreeList(i, b)] == lists[FreeList(i, b)]
    ensures FreeTie(lists', i, b, bin)
  {
  }

  lemma FreeTiesKept(lists: map<ListId, seq<Ptr>>, lists': map<ListId, seq<Ptr>>, i: nat, bins: seq<MemBin>)
    requires FreeTies(lists, i, bins)
    requires forall l | l in lists && l.FreeList? :: l in lists' && lists'[l] == lists[l]
    ensures FreeTies(lists', i, bins)
  {
    forall b | 0 <= b < MAX_ALLOC_POWER ensures FreeTie(lists', i, b, bins[b]) {
      assert FreeTie(lists, i, b, bins[b]);
    }
  }

  lemma RingGrows(s: State, t: State, i: nat, h: Ptr, ring: seq<Ptr>, bins: seq<nat>, bin: nat)
    requires RingTie(s.blk, s.lists, i, ring, bins) && h in s.blk && s.blk[h].bin == bin
    requires t == Quarantine(s, DelayRing(i), h, bin)
    ensures RingTie(t.blk, t.lists, i, ring + [h], bins + [bin])
  {
  }

  lemma RingShrinks(s: State, t: State, i: nat, h: Ptr, ring: seq<Ptr>, ring': seq<Ptr>, bins': seq<nat>, bins: seq<nat>)
    requires RingTie(s.blk, s.lists, i, ring, bins) && ring == [h] + ring' && bins' == bins[1..]
    requires DelayRing(i) in t.lists && t.lists[DelayRing(i)] == ring'
    requires forall x | x in s.blk :: x in t.blk && t.blk[x].bin == s.blk[x].bin
    ensures RingTie(t.blk, t.lists, i, ring', bins') && ring' == ring[1..]
  {
    forall k | 0 <= k < |ring'| ensures ring'[k] in t.blk && t.blk[ring'[k]].bin == bins'[k] {
      assert ring'[k] == ring[k + 1];
    }
  }

  /** What `circGet` relies on before it makes the oldest block accessible. */
  lemma OldestFacts(s: State, l: ListId, h: Ptr)
    requires Inv(s) && l in s.lists && l.DelayRing? && s.lists[l] != [] && h == s.lists[l][0]
    ensures h in s.blk && s.blk[h].own.Delayed? && s.blk[h].slot == l.slot && MIN_BIN <= s.blk[h].bin < MAX_ALLOC_POWER
    ensures h % PAGE_SIZE == 0 && Pow2(s.blk[h].bin) >= PAGE_SIZE && Pow2(s.blk[h].bin) % PAGE_SIZE == 0
    ensures Mapped(s.mem, h, Pow2(s.blk[h].bin)) && Mapped(s.mem, h, PAGE_SIZE)
    ensures IsHdr(s.mem, h) && s.mem[h].hdr.binNum == s.blk[h].bin
    ensures FreeList(l.slot, s.blk[h].bin) != l
  {
    ListFacts(s, l);
    assert h in s.lists[l];
    BlockFacts(s, h);
    Pow2Pages(s.blk[h].bin);
  }

  /** What `memalignInt` relies on when it starts writing. */
  lemma TakenFacts(s: State, h: Ptr)
    requires Inv(s) && h in s.blk && s.blk[h].own.Taken?
    ensures IsHdr(s.mem, h) && s.mem[h].hdr.magic == MAGIC_FREE
    ensures Mapped(s.mem, h, Pow2(s.blk[h].bin)) && Reachable(s.noAccess, h, Pow2(s.blk[h].bin))
  {
    BlockFacts(s, h);
  }

  lemma RefilledSettled(s: State, t: State, l: ListId, h: Ptr)
    requires Refilled(s, t, l) && Settled(s.blk, NULL) && NULL !in s.blk
    ensures Settled(t.blk, NULL) && Settled(t.blk, h)
    ensures h in s.blk && h in t.blk ==> t.blk[h] == s.blk[h]
  {
  }

  /** Refilling and then taking the first block grants it. */
  lemma GrantNow(s: State, t: State, u: State, i: nat, b: nat, h: Ptr, size: nat)
    requires Inv(s) && Inv(t) && Inv(u) && Settled(s.blk, NULL)
    requires Refilled(s, t, FreeList(i, b)) && Evolves(s, t, NULL)
    requires Took(t, u, i, b, h, size) && Evolves(t, u, h)
    ensures Granted(s, u, h, i, b, size)
  {
    hide Inv, Evolves, Owned, Settled, Refilled, Took;
    InvOwned(s);
    InvOwned(t);
    InvOwned(u);
    RefilledSettled(s, t, FreeList(i, b), h);
    EvolvesWeaken(s, t, h);
    EvolvesTrans(s, t, u, h);
    TookGrants(t, u, i, b, h, size);
  }

  lemma TookGrants(s: State, t: State, i: nat, b: nat, h: Ptr, size: nat)
    requires Owned(s) && Took(s, t, i, b, h, size) && Settled(s.blk, NULL) && NULL !in s.blk
    ensures h in s.blk && s.blk[h].own.Avail? && Settled(t.blk, h)
    ensures h in t.blk && t.blk[h] == Block(i, b, Taken, s.blk[h].usr, size)
  {
    assert ListOf(s.blk, s.lists[FreeList(i, b)], FreeList(i, b)) && h in s.lists[FreeList(i, b)];
  }

  lemma InvOwned(s: State)
    requires Inv(s)
    ensures Owned(s) && NULL !in s.blk
  {
    ZoneFacts(s);
  }

  lemma RefilledSame(s: State, t: State, l: ListId)
    requires Refilled(s, t, l) && l.FreeList? && l in s.lists
    ensures OtherSlotsSame(s, t, l.slot)
    ensures t.lists == s.lists[l := ListAt(t.lists, l)]
    ensures forall x | x in s.blk :: x in t.blk && SameSize(s.blk[x], t.blk[x])
  {
  }

  /** The bins of an unused slot once the water marks of bins 12 to k-1 are set. */
  function BinsUpTo(k: nat): seq<MemBin> {
    seq(MAX_ALLOC_POWER, b => if MIN_BIN <= b < k then MemBin(0, 0, 200, 100, 0, NULL, NULL) else MemBin(0, 0, 0, 0, 0, NULL, NULL))
  }

  /** Bins 12 to 17 have their water marks, and at least 99 free blocks each. */
  ghost predicate InStock(bins: seq<MemBin>) {
    |bins| == MAX_ALLOC_POWER && forall b | 12 <= b < 18 :: bins[b].numFree >= 99 && bins[b].lowWater == 100 && bins[b].highWater == 200
  }

  lemma StockStays(bins: seq<MemBin>, bins': seq<MemBin>)
    requires InStock(bins) && NoFewer(bins, bins')
    ensures InStock(bins')
  {
  }

  /** A refill that failed halfway. */
  lemma StockGrows(bins: seq<MemBin>, bins': seq<MemBin>, b: nat)
    requires InStock(bins) && b < |bins| == |bins'| && bins'[b].numFree >= bins[b].numFree
    requires bins' == bins[b := bins[b].(headFree := bins'[b].headFree, numFree := bins'[b].numFree)]
    ensures InStock(bins')
  {
  }

  /** A refill, and one block taken. */
  lemma StockLasts(bins0: seq<MemBin>, bins1: seq<MemBin>, bins2: seq<MemBin>, b: nat)
    requires InStock(bins0) && b < |bins0| == |bins1| == |bins2| && Replenished(bins0[b], bins1[b].numFree)
    requires bins1 == bins0[b := bins0[b].(headFree := bins1[b].headFree, numFree := bins1[b].numFree)]
    requires bins2[b].numFree == bins1[b].numFree - 1
    requires bins2 == bins1[b := bins1[b].(headFree := bins2[b].headFree, headInUse := bins2[b].headInUse,
                                           numFree := bins2[b].numFree, allocs := bins2[b].allocs)]
    ensures InStock(bins2)
  {
  }

  /** What initialization leaves in a slot. */
  ghost predicate FirstStock(bins: seq<MemBin>) {
    |bins| == MAX_ALLOC_POWER && forall b | 0 <= b < MAX_ALLOC_POWER ::
      if 12 <= b < 18 then bins[b].numFree == bins[b].highWater == 200 && bins[b].lowWater == 100
      else bins[b].numFree == bins[b].highWater == bins[b].lowWater == 0
  }

  lemma StockedIn(bins: seq<MemBin>)
    requires Stocked(bins)
    ensures InStock(bins) && FirstStock(bins)
  {
    forall b | 0 <= b < MAX_ALLOC_POWER
      ensures bins[b] == BinsUpTo(MAX_PREALLOC_POWER)[b].(headFree := bins[b].headFree, numFree := StockOf(b))
    {
      assert StockedBin(b, bins[b]);
    }
  }

  /** It takes 56524800 bytes of pool for each slot. */
  lemma FirstCost(n: nat)
    ensures Times(n, StockCost(MAX_PREALLOC_POWER)) == n * 56524800
  {
    Pow2Pages(12);
    assert Pow2(13) == 2 * Pow2(12) && Pow2(14) == 2 * Pow2(13) && Pow2(15) == 2 * Pow2(14);
    assert Pow2(16) == 2 * Pow2(15) && Pow2(17) == 2 * Pow2(16);
    hide Pow2;
    assert StockCost(13) == 200 * 8192;
    assert StockCost(14) == StockCost(13) + 200 * 12288;
    assert StockCost(15) == StockCost(14) + 200 * 20480;
    assert StockCost(16) == StockCost(15) + 200 * 36864;
    assert StockCost(17) == StockCost(16) + 200 * 69632;
    assert StockCost(18) == StockCost(17) + 200 * 135168;
  }

  /** Initial stock of a bin. */
  function StockOf(b: nat): nat {
    if MIN_BIN <= b < MAX_PREALLOC_POWER then 200 else 0
  }

  /** The bin has its initial stock and its water marks. */
  ghost predicate StockedBin(b: nat, bin: MemBin)
    requires b < MAX_ALLOC_POWER
  {
    bin == BinsUpTo(MAX_PREALLOC_POWER)[b].(headFree := bin.headFree, numFree := StockOf(b))
  }

  ghost predicate Stocked(bins: seq<MemBin>) {
    |bins| == MAX_ALLOC_POWER && forall b | 0 <= b < MAX_ALLOC_POWER :: StockedBin(b, bins[b])
  }

  /** Pool bytes needed to stock bins below k of one slot. */
  function StockCost(k: nat): nat {
    if k <= MIN_BIN then 0 else StockCost(k - 1) + Times(200, Pow2(k - 1) + PAGE_SIZE)
  }

  lemma StockCostZero()
    ensures StockCost(0) == 0 && StockCost(MIN_BIN) == 0
  {
  }

  lemma StockCostStep(k: nat)
    requires k < MAX_PREALLOC_POWER
    ensures StockCost(k + 1) == StockCost(k) + Times(StockOf(k), Pow2(k) + PAGE_SIZE)
    ensures k >= MIN_BIN ==> StockCost(k + 1) == StockCost(k) + 200 * (Pow2(k) + PAGE_SIZE)
  {
    TimesZero(Pow2(k) + PAGE_SIZE);
  }

  lemma {:induction false} TimesPages(n: nat, c: nat)
    requires c % PAGE_SIZE == 0
    ensures Times(n, c) % PAGE_SIZE == 0
  {
    if n == 0 {
      TimesZero(c);
    } else {
      TimesPages(n - 1, c);
      MulStep(n - 1, c);
      PagesAdd(Times(n - 1, c), c);
    }
  }

  lemma {:induction false} StockCostPages(k: nat)
    ensures StockCost(k) % PAGE_SIZE == 0
  {
    hide Times, Pow2;
    if k > MIN_BIN {
      StockCostPages(k - 1);
      Pow2Pages(k - 1);
      TimesPages(200, Pow2(k - 1) + PAGE_SIZE);
      PagesAdd(StockCost(k - 1), Times(200, Pow2(k - 1) + PAGE_SIZE));
    }
  }

  /** The first pool is twice the initial stock and a page. */
  lemma SpareIsHalf(n: nat)
    ensures var i := Times(n, StockCost(MAX_PREALLOC_POWER)); PoolSize(START_POOL_MULT * i) == 2 * i + PAGE_SIZE
  {
    hide StockCost, Times, PoolSize;
    StockCostPages(MAX_PREALLOC_POWER);
    TimesPages(n, StockCost(MAX_PREALLOC_POWER));
    TwicePages(Times(n, StockCost(MAX_PREALLOC_POWER)));
  }

  lemma TwicePages(x: nat)
    requires x % PAGE_SIZE == 0
    ensures PoolSize(2 * x) == 2 * x + PAGE_SIZE
  {
    var q := x / PAGE_SIZE;
    assert x == q * 4096;
    WholePool(2 * q);
  }

  lemma WholePool(q: nat)
    ensures PoolSize(q * 4096) == q * 4096 + PAGE_SIZE
  {
    assert q * 4096 / 4096 == q;
  }

  lemma ToppedStocks(bins: seq<MemBin>)
    requires Topped(BinsUpTo(MAX_PREALLOC_POWER), bins, MAX_PREALLOC_POWER)
    ensures Stocked(bins)
  {
    forall b | 0 <= b < MAX_ALLOC_POWER ensures StockedBin(b, bins[b]) {
      assert b < MAX_PREALLOC_POWER ==> ToppedBin(b, BinsUpTo(MAX_PREALLOC_POWER)[b], bins[b]);
    }
  }

  lemma {:induction false} PrimedCostUpTo(k: nat)
    requires k <= MAX_PREALLOC_POWER
    ensures CostUpTo(BinsUpTo(MAX_PREALLOC_POWER), k) == StockCost(k)
  {
    if k == 0 {
      StockCostZero();
    } else {
      PrimedCostUpTo(k - 1);
      StockCostStep(k - 1);
    }
  }

  /** The initial stock of all slots. */
  lemma {:induction false} PrimedCost(all: seq<seq<MemBin>>)
    requires forall i | 0 <= i < |all| :: all[i] == BinsUpTo(MAX_PREALLOC_POWER)
    ensures CostOfAll(all) == Times(|all|, StockCost(MAX_PREALLOC_POWER))
  {
    hide BinsUpTo, StockCost, Times;
    if all == [] {
      TimesZero(StockCost(MAX_PREALLOC_POWER));
    } else {
      PrimedCost(all[..|all| - 1]);
      PrimedCostUpTo(MAX_PREALLOC_POWER);
      MulStep(|all| - 1, StockCost(MAX_PREALLOC_POWER));
    }
  }

  lemma StocksAvail(blk: map<Ptr, Block>, blk': map<Ptr, Block>)
    requires Stocks(blk, blk') && forall x | x in blk :: blk[x].own.Avail?
    ensures forall x | x in blk' :: blk'[x].own.Avail?
  {
  }

  /** The ties do not mention the water marks. */
  lemma MarksIgnored(blk: map<Ptr, Block>, lists: map<ListId, seq<Ptr>>, i: nat, bins: seq<MemBin>, bins': seq<MemBin>,
                     log: Log, ring: seq<Ptr>, ringBins: seq<nat>)
    requires AllTies(blk, lists, i, bins, log, ring, ringBins) && |bins'| == |bins|
    requires forall b | 0 <= b < |bins| :: bins'[b] == bins[b].(lowWater := bins'[b].lowWater, highWater := bins'[b].highWater)
    ensures AllTies(blk, lists, i, bins', log, ring, ringBins)
  {
    forall b | 0 <= b < MAX_ALLOC_POWER ensures FreeTie(lists, i, b, bins'[b]) && UsedTie(blk, lists, log, i, b, bins'[b]) {
      assert FreeTie(lists, i, b, bins[b]) && UsedTie(blk, lists, log, i, b, bins[b]);
    }
  }

  /** How many free blocks `replenishBin` leaves in a bin. */
  function RefillTarget(binNum: nat, bin: MemBin): (n: nat)
    ensures n >= bin.numFree
  {
    if binNum < MIN_BIN then bin.numFree
    else if bin.headFree == NULL || bin.numFree < bin.lowWater then Max(bin.numFree + 1, bin.highWater)
    else bin.numFree
  }

  /** The rule of the water marks: with a free block at hand, and not fewer than the low-water mark, nothing is
      carved; otherwise at least one block is, and as many as it takes to reach the high-water mark. */
  predicate Replenished(bin: MemBin, numFree: nat) {
    if bin.numFree > 0 && bin.numFree >= bin.lowWater then numFree == bin.numFree
    else numFree == if bin.highWater > bin.numFree + 1 then bin.highWater else bin.numFree + 1
  }

  lemma TargetReplenishes(lists: map<ListId, seq<Ptr>>, i: nat, b: nat, bin: MemBin)
    requires FreeTie(lists, i, b, bin) && b >= MIN_BIN && NULL !in lists[FreeList(i, b)]
    ensures Replenished(bin, RefillTarget(b, bin))
  {
  }

  /** It leaves at least one. */
  lemma RefillLeaves(lists: map<ListId, seq<Ptr>>, i: nat, b: nat, bin: MemBin)
    requires FreeTie(lists, i, b, bin) && b >= MIN_BIN
    ensures RefillTarget(b, bin) > 0
  {
  }

  /** How many blocks refilling bin b takes. */
  function Blocks(bins: seq<MemBin>, b: nat): nat {
    if b < |bins| then RefillTarget(b, bins[b]) - bins[b].numFree else 0
  }

  /** What is left of the pools after refilling bin b. */
  function Refilling(r: Reserve, bins: seq<MemBin>, b: nat): Reserve {
    After(r, b, Blocks(bins, b))
  }

  /** What is left of them after refilling the bins below k. */
  function RefillingUpTo(r: Reserve, bins: seq<MemBin>, k: nat): Reserve {
    if k == 0 then r else Refilling(RefillingUpTo(r, bins, k - 1), bins, k - 1)
  }

  function BlocksUpTo(bins: seq<MemBin>, k: nat): nat {
    if k == 0 then 0 else BlocksUpTo(bins, k - 1) + Blocks(bins, k - 1)
  }

  lemma {:induction false} RefillingMono(r: Reserve, bins: seq<MemBin>, j: nat, k: nat)
    requires j <= k
    ensures 0 <= RefillingUpTo(r, bins, k).last - RefillingUpTo(r, bins, j).last <= BlocksUpTo(bins, k) - BlocksUpTo(bins, j)
    decreases k
  {
    if j < k {
      RefillingMono(r, bins, j, k - 1);
      AfterBounds(RefillingUpTo(r, bins, k - 1), k - 1, 0, Blocks(bins, k - 1));
    }
  }

  lemma RefillingBounds(r: Reserve, bins: seq<MemBin>)
    ensures r.last <= RefillingUpTo(r, bins, MAX_PREALLOC_POWER).last <= r.last + BlocksUpTo(bins, MAX_PREALLOC_POWER)
  {
    RefillingMono(r, bins, 0, MAX_PREALLOC_POWER);
  }

  /** What is left of them after doing so for every slot. */
  function RefillingAll(r: Reserve, all: seq<seq<MemBin>>): Reserve {
    if all == [] then r
    else RefillingUpTo(RefillingAll(r, all[..|all| - 1]), all[|all| - 1], MAX_PREALLOC_POWER)
  }

  function BlocksOfAll(all: seq<seq<MemBin>>): nat {
    if all == [] then 0 else BlocksOfAll(all[..|all| - 1]) + BlocksUpTo(all[|all| - 1], MAX_PREALLOC_POWER)
  }

  /** Pool bytes that refilling bin b takes. */
  function CostOf(bins: seq<MemBin>, b: nat): nat {
    Times(Blocks(bins, b), Pow2(b) + PAGE_SIZE)
  }

  function CostUpTo(bins: seq<MemBin>, k: nat): nat {
    if k == 0 then 0 else CostUpTo(bins, k - 1) + CostOf(bins, k - 1)
  }

  lemma {:induction false} CostMono(bins: seq<MemBin>, j: nat, k: nat)
    requires j <= k
    ensures CostUpTo(bins, j) <= CostUpTo(bins, k)
    decreases k
  {
    if j < k { CostMono(bins, j, k - 1); }
  }

  function CostOfAll(all: seq<seq<MemBin>>): nat {
    if all == [] then 0 else CostOfAll(all[..|all| - 1]) + CostUpTo(all[|all| - 1], MAX_PREALLOC_POWER)
  }

  lemma AllCostStep(all: seq<seq<MemBin>>, i: nat)
    requires i < |all|
    ensures CostOfAll(all[..i + 1]) == CostOfAll(all[..i]) + CostUpTo(all[i], MAX_PREALLOC_POWER)
    ensures BlocksOfAll(all[..i + 1]) == BlocksOfAll(all[..i]) + BlocksUpTo(all[i], MAX_PREALLOC_POWER)
    ensures forall r :: RefillingAll(r, all[..i + 1]) == RefillingUpTo(RefillingAll(r, all[..i]), all[i], MAX_PREALLOC_POWER)
  {
    assert all[..i + 1][..i] == all[..i];
  }

  lemma {:induction false} RefillingAllMono(r: Reserve, all: seq<seq<MemBin>>, i: nat)
    requires i <= |all|
    ensures RefillingAll(r, all[..i]).last <= RefillingAll(r, all).last
    ensures BlocksOfAll(all[..i]) <= BlocksOfAll(all)
    decreases |all| - i
  {
    hide RefillingUpTo, BlocksUpTo;
    if i == |all| {
      assert all[..i] == all;
    } else {
      AllCostStep(all, i);
      RefillingBounds(RefillingAll(r, all[..i]), all[i]);
      RefillingAllMono(r, all, i + 1);
    }
  }

  /** The pools are at r when the first i slots have been seen to, some of them in vain if the kernel refused. */
  predicate RefilledSoFar(r0: Reserve, all: seq<seq<MemBin>>, i: nat, r: Reserve, refused0: nat, refused: nat)
    requires i <= |all|
  {
    && refused0 <= refused && r.last <= r0.last + BlocksOfAll(all[..i])
    && (refused == refused0 ==> r == RefillingAll(r0, all[..i]))
  }

  lemma RefilledStart(r0: Reserve, all: seq<seq<MemBin>>, refused: nat)
    ensures RefilledSoFar(r0, all, 0, r0, refused, refused)
    ensures CostOfAll(all[..0]) == 0
  {
  }

  lemma RefilledMeans(r0: Reserve, all: seq<seq<MemBin>>, i: nat, r: Reserve, refused0: nat, refused: nat)
    requires i <= |all| && RefilledSoFar(r0, all, i, r, refused0, refused)
    ensures refused0 <= refused && r.last <= r0.last + BlocksOfAll(all)
    ensures i == |all| && refused == refused0 ==> r == RefillingAll(r0, all)
  {
    RefillingAllMono(r0, all, i);
    assert all[..|all|] == all;
  }

  lemma RefilledNext(st: Status, r0: Reserve, all: seq<seq<MemBin>>, i: nat, r1: Reserve, r2: Reserve,
                     refused0: nat, refused1: nat, refused2: nat)
    requires i < |all| && RefilledSoFar(r0, all, i, r1, refused0, refused1)
    requires Explained(st, RefillingUpTo(r1, all[i], MAX_PREALLOC_POWER), r2, refused1, refused2)
    ensures if st.Aborted? then r2.last == MAX_MEM_POOLS else r2.last < MAX_MEM_POOLS
    ensures refused0 <= refused1 <= refused2 && (refused2 == refused1 <==> st.Ok? || st.Aborted?)
    ensures r2.last <= r0.last + BlocksOfAll(all)
    ensures st.Aborted? && refused2 == refused0 ==> RefillingAll(r0, all).last >= MAX_MEM_POOLS
    ensures !st.Aborted? ==> RefilledSoFar(r0, all, i + 1, r2, refused0, refused2)
  {
    hide RefillingUpTo, RefillingAll, BlocksUpTo, BlocksOfAll;
    AllCostStep(all, i);
    RefillingBounds(r1, all[i]);
    RefillingAllMono(r0, all, i + 1);
  }

  lemma {:induction false} AllCostMono(all: seq<seq<MemBin>>, i: nat)
    requires i <= |all|
    ensures CostOfAll(all[..i]) <= CostOfAll(all)
    decreases |all| - i
  {
    if i == |all| {
      assert all[..i] == all;
    } else {
      AllCostStep(all, i);
      AllCostMono(all, i + 1);
    }
  }

  /** Bins below k have been brought up to their targets, and nothing else about any bin differs. */
  ghost predicate Topped(bins: seq<MemBin>, bins': seq<MemBin>, k: nat) {
    && |bins| == |bins'| == MAX_ALLOC_POWER
    && (forall b | 0 <= b < MAX_ALLOC_POWER && b < k :: ToppedBin(b, bins[b], bins'[b]))
    && forall b | k <= b < MAX_ALLOC_POWER :: bins'[b] == bins[b]
  }

  ghost predicate ToppedBin(b: nat, bin: MemBin, bin': MemBin) {
    bin' == bin.(headFree := bin'.headFree, numFree := RefillTarget(b, bin))
  }

  lemma ToppedNone(bins: seq<MemBin>)
    requires |bins| == MAX_ALLOC_POWER
    ensures Topped(bins, bins, 0)
  {
  }

  lemma ToppedStep(bins0: seq<MemBin>, bins1: seq<MemBin>, bins2: seq<MemBin>, k: nat)
    requires Topped(bins0, bins1, k) && k < MAX_ALLOC_POWER && |bins2| == MAX_ALLOC_POWER
    requires bins2 == bins1[k := bins1[k].(headFree := bins2[k].headFree, numFree := RefillTarget(k, bins1[k]))]
    ensures Topped(bins0, bins2, k + 1)
  {
  }

  lemma CostAt(bins: seq<MemBin>, bins': seq<MemBin>, k: nat)
    requires Topped(bins, bins', k) && k < MAX_ALLOC_POWER
    ensures |bins'| == MAX_ALLOC_POWER && CostOf(bins', k) == CostOf(bins, k) && Blocks(bins', k) == Blocks(bins, k)
  {
    assert bins'[k] == bins[k];
  }

  /** New blocks may have been carved, all of them free; the others are as they were. */
  ghost predicate Stocks(blk: map<Ptr, Block>, blk': map<Ptr, Block>) {
    && (forall x | x in blk :: x in blk' && blk'[x] == blk[x])
    && forall x | x in blk' && x !in blk :: blk'[x].own.Avail?
  }

  lemma StocksRefl(blk: map<Ptr, Block>)
    ensures Stocks(blk, blk)
  {
  }

  lemma StocksTrans(a: map<Ptr, Block>, b: map<Ptr, Block>, c: map<Ptr, Block>)
    requires Stocks(a, b) && Stocks(b, c)
    ensures Stocks(a, c)
  {
  }

  lemma RefilledStocks(s: State, t: State, l: ListId)
    requires Refilled(s, t, l)
    ensures Stocks(s.blk, t.blk)
  {
  }

  /** t is s with some new free blocks on free list l, and nothing else. */
  ghost predicate Refilled(s: State, t: State, l: ListId) {
    && t.lists == s.lists[l := ListAt(t.lists, l)]
    && (forall x | x in s.blk :: x in t.blk && t.blk[x] == s.blk[x])
    && forall x | x in t.blk && x !in s.blk :: t.blk[x].own.Avail?
  }

  lemma RefilledRefl(s: State, l: ListId)
    requires l in s.lists
    ensures Refilled(s, s, l)
  {
  }

  lemma RefilledStep(s: State, t: State, u: State, l: ListId, h: Ptr)
    requires Refilled(s, t, l) && Carved(t, u, l, h)
    ensures Refilled(s, u, l)
  {
  }

  /** t is s with one new free block h at the front of free list l. */
  ghost predicate Carved(s: State, t: State, l: ListId, h: Ptr) {
    && l.FreeList? && h !in s.blk
    && t.blk == s.blk[h := Block(l.slot, l.bin, Avail, NULL, 0)]
    && t.lists == s.lists[l := [h] + ListAt(s.lists, l)]
  }

  lemma Overlaid(m: Mem, h: Ptr, hdr: ElmHdr, hdr': ElmHdr)
    ensures var m' := OverlayHdr(m, h, hdr);
      IsHdr(m', h) && m'[h].hdr == hdr && PutHdr(m', h, hdr') == OverlayHdr(m, h, hdr') && m.Keys <= m'.Keys
  {
  }

  lemma RawUsable(s: State, h: Ptr, binNum: nat)
    requires RawExtent(s, h, Pow2(binNum)) && MIN_BIN <= binNum
    ensures IsFilled(s.mem, h, ELM_HDR_BYTES, 0) && Mapped(s.mem, h, ELM_HDR_BYTES) && Reachable(s.noAccess, h, ELM_HDR_BYTES)
  {
    Pow2Pages(binNum);
  }

  lemma AdoptThenAttach(s: State, h: Ptr, slot: nat, bin: nat)
    requires h !in s.blk
    ensures Carved(s, Attach(Adopt(s, h, slot, bin), FreeList(slot, bin), h, Avail), FreeList(slot, bin), h)
  {
  }

  lemma SameBins(blk: map<Ptr, Block>, h: Ptr, own: Owner)
    ensures BinsOf(Reown(blk, h, own)) == BinsOf(blk)
  {
  }
}
