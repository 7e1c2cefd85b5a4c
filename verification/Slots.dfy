// One slot: its bins, its delay ring, and its counters.
module Slots {
  import opened Bits
  import opened Memory
  import opened Lists
  import opened Heap
  import opened Accounting
  import opened Ties
  import opened DelayFree
  import opened Layout

  datatype MemHisto = MemHisto(allocs: nat, frees: nat)

  /** The histogram column of a user size. */
  function SizeBin(size: nat): nat
    requires Servable(size)
  {
    ServableFits(size);
    Log2Fast(size)
  }

  /** It is the least power of two that covers the size. */
  lemma ClassIsTight(size: nat)
    requires Servable(size)
    ensures size <= Pow2(SizeBin(size)) && forall k: nat :: size <= Pow2(k) ==> SizeBin(size) <= k
  {
    ServableFits(size);
    Log2FastCeiling(size);
  }

  /** The log entries of an allocation and of a free. */
  function GetOf(bin: nat, size: nat): Event {
    Get(bin, size, if Servable(size) then SizeBin(size) else 0)
  }

  function PutOf(b: Block): Event {
    Put(b.bin, b.size, if Servable(b.size) then SizeBin(b.size) else 0)
  }

  ghost predicate Classed(log: Log) {
    forall e | e in log :: Servable(e.size) && e.cls == SizeBin(e.size)
  }

  lemma SizeBinBelow(size: nat, allocSize: nat)
    requires size <= allocSize && Servable(allocSize)
    ensures Servable(size) && size <= Pow2(SizeBin(size)) && SizeBin(size) <= BinFor(allocSize) < MAX_ALLOC_POWER
  {
    ServableFits(size);
    ServableFits(allocSize);
    Log2FastCeiling(size);
    BinIsTight(allocSize);
  }

  lemma SizeFits(size: nat, bin: nat)
    requires size <= Pow2(bin) && bin < MAX_ALLOC_POWER
    ensures Servable(size) && SizeBin(size) <= bin
  {
    Pow2Mono(bin, MAX_ALLOC_POWER - 1);
    ServableFits(size);
    Log2FastCeiling(size);
  }

  ghost predicate Tally(log: Log, histo: seq<MemHisto>, requested: nat, freed: nat, mark: nat, dumps: Dumps, interval: nat) {
    && Sized(log, MAX_ALLOC_POWER) && Classed(log)
    && |histo| == MAX_ALLOC_POWER
    && (forall k | 0 <= k < MAX_ALLOC_POWER :: histo[k].allocs == ClassGets(log, k) && histo[k].frees == ClassPuts(log, k))
    && requested == GotBytes(log) && freed == PutBytes(log)
    && mark == HighWater(log) && DumpState(log, interval) == dumps
  }

  class MemSlot {
    const num: nat
    const delay: MemFreeDelay
    var memBins: seq<MemBin>
    // This slot's row of the global request histogram
    var memHisto: seq<MemHisto>
    var totalUserRequestedBytes: nat
    var totalUserFreedBytes: nat
    var HWMUsrBytes: nat
    var lastHWMUsrBytesDump: nat
    var dumps: nat
    // Every allocation and free of this slot, in order
    ghost var log: Log

    /** The counters are what the log says. */
    ghost predicate Counted(interval: nat)
      reads this`log, this`memHisto, this`totalUserRequestedBytes, this`totalUserFreedBytes,
            this`HWMUsrBytes, this`lastHWMUsrBytesDump, this`dumps
    {
      Tally(log, memHisto, totalUserRequestedBytes, totalUserFreedBytes, HWMUsrBytes, Dumps(lastHWMUsrBytesDump, dumps), interval)
    }

    /** The ring is queued in the order of its puts, and drained on schedule. */
    ghost predicate OnSchedule()
      reads delay, delay.elms
      requires delay.Valid()
    {
      delay.Contents() == delay.puts[Released(delay.cap, |delay.puts|)..]
    }

    ghost predicate Tied(blk: map<Ptr, Block>, lists: map<ListId, seq<Ptr>>)
      reads this, delay, delay.elms
    {
      && delay.Valid() && OnSchedule()
      && AllTies(blk, lists, num, memBins, log, delay.Contents(), delay.bins)
    }

    constructor (num: nat, cap: nat, interval: nat)
      requires cap >= 4 && cap % 4 == 0
      ensures Counted(interval) && log == [] && delay.Valid() && OnSchedule() && delay.Contents() == [] && delay.bins == []
      ensures this.num == num && delay.num == num && delay.cap == cap && fresh(delay) && fresh(delay.elms)
      ensures |memBins| == MAX_ALLOC_POWER
      ensures forall b | 0 <= b < MAX_ALLOC_POWER :: memBins[b] == MemBin(0, 0, 0, 0, 0, NULL, NULL)
    {
      this.num := num;
      delay := new MemFreeDelay(num, cap);
      memBins := seq(MAX_ALLOC_POWER, _ => MemBin(0, 0, 0, 0, 0, NULL, NULL));
      memHisto := seq(MAX_ALLOC_POWER, _ => MemHisto(0, 0));
      totalUserRequestedBytes, totalUserFreedBytes, HWMUsrBytes, lastHWMUsrBytesDump, dumps := 0, 0, 0, 0, 0;
      log := [];
    }

    /** The statistics part of `getBuf`. */
    method CountGet(binNum: nat, usrSize: nat, interval: nat)
      requires Counted(interval) && Net(log) >= 0
      requires binNum < MAX_ALLOC_POWER && Servable(usrSize) && SizeBin(usrSize) <= binNum
      modifies this`memHisto, this`totalUserRequestedBytes, this`HWMUsrBytes, this`lastHWMUsrBytesDump,
               this`dumps, this`log
      ensures Counted(interval) && log == old(log) + [Get(binNum, usrSize, SizeBin(usrSize))]
    {
      hide Sized, Classed, GotBytes, PutBytes, HighWater, DumpState, ClassGets, ClassPuts, Servable, SizeBin;
      var usrSizeBin := SizeBin(usrSize);
      ghost var e := Get(binNum, usrSize, usrSizeBin);
      LogGrows(log, e, interval);
      memHisto := memHisto[usrSizeBin := memHisto[usrSizeBin].(allocs := memHisto[usrSizeBin].allocs + 1)];
      totalUserRequestedBytes := totalUserRequestedBytes + usrSize;
      HWMUsrBytes := if HWMUsrBytes > totalUserRequestedBytes - totalUserFreedBytes
        then HWMUsrBytes else totalUserRequestedBytes - totalUserFreedBytes;
      if HWMUsrBytes > lastHWMUsrBytesDump + interval {
        lastHWMUsrBytesDump := HWMUsrBytes;
        dumps := dumps + 1;
      }
      log := log + [e];
    }

    /** The statistics part of `putBuf`. */
    method CountPut(ghost binNum: nat, usrDataSize: nat, interval: nat)
      requires Counted(interval)
      requires binNum < MAX_ALLOC_POWER && Servable(usrDataSize) && SizeBin(usrDataSize) <= binNum
      modifies this`memHisto, this`totalUserFreedBytes, this`log
      ensures Counted(interval) && log == old(log) + [Put(binNum, usrDataSize, SizeBin(usrDataSize))]
    {
      hide Sized, Classed, GotBytes, PutBytes, HighWater, DumpState, ClassGets, ClassPuts, Servable, SizeBin;
      var usrSizeBin := SizeBin(usrDataSize);
      ghost var e := Put(binNum, usrDataSize, usrSizeBin);
      LogGrows(log, e, interval);
      memHisto := memHisto[usrSizeBin := memHisto[usrSizeBin].(frees := memHisto[usrSizeBin].frees + 1)];
      totalUserFreedBytes := totalUserFreedBytes + usrDataSize;
      log := log + [e];
    }
  }

  /** Requested minus freed bytes of a slot are never negative. */
  lemma NetNonNegative(m: MemSlot, blk: map<Ptr, Block>, lists: map<ListId, seq<Ptr>>, interval: nat)
    requires m.Counted(interval) && m.Tied(blk, lists)
    ensures Net(m.log) >= 0
  {
    NetIsHeld(blk, lists, m.log, m.num, m.memBins, MAX_ALLOC_POWER);
    NetAddsUp(m.log, MAX_ALLOC_POWER);
  }

  lemma CountFacts(m: MemSlot, interval: nat)
    requires m.Counted(interval)
    ensures m.totalUserRequestedBytes == GotBytes(m.log) && m.totalUserFreedBytes == PutBytes(m.log)
    ensures |m.memHisto| == MAX_ALLOC_POWER && Sized(m.log, MAX_ALLOC_POWER)
    ensures forall k | 0 <= k < MAX_ALLOC_POWER :: m.memHisto[k].allocs == ClassGets(m.log, k)
  {
  }

  lemma BinFacts(m: MemSlot, blk: map<Ptr, Block>, lists: map<ListId, seq<Ptr>>, b: nat)
    requires m.Tied(blk, lists) && b < MAX_ALLOC_POWER
    ensures |m.memBins| == MAX_ALLOC_POWER
    ensures FreeTie(lists, m.num, b, m.memBins[b]) && UsedTie(blk, lists, m.log, m.num, b, m.memBins[b])
  {
  }

  lemma TiedKept(m: MemSlot, s: State, t: State)
    requires Owned(s) && SlotSame(s, t, m.num) && m.Tied(s.blk, s.lists)
    ensures m.Tied(t.blk, t.lists)
  {
    hide AllTies, SlotSame, Owned;
    TiesKept(s, t, m.num, m.memBins, m.log, m.delay.Contents(), m.delay.bins);
  }

  /** How each fold over the log takes one more event. */
  lemma LogGrows(log: Log, e: Event, interval: nat)
    requires Sized(log, MAX_ALLOC_POWER) && Classed(log)
    requires e.bin < MAX_ALLOC_POWER && Servable(e.size) && e.cls == SizeBin(e.size) && e.cls <= e.bin
    ensures var g := log + [e];
      && Sized(g, MAX_ALLOC_POWER) && Classed(g)
      && GotBytes(g) == GotBytes(log) + (if e.Get? then e.size else 0)
      && PutBytes(g) == PutBytes(log) + (if e.Put? then e.size else 0)
      && HighWater(g) == (if e.Get? then Max(HighWater(log), Net(log) + e.size) else HighWater(log))
      && DumpState(g, interval) ==
           (if e.Get? && HighWater(g) > DumpState(log, interval).last + interval
            then Dumps(HighWater(g), DumpState(log, interval).count + 1) else DumpState(log, interval))
    ensures forall k :: ClassGets(log + [e], k) == ClassGets(log, k) + (if e.Get? && e.cls == k then 1 else 0)
    ensures forall k :: ClassPuts(log + [e], k) == ClassPuts(log, k) + (if e.Put? && e.cls == k then 1 else 0)
  {
    var g := log + [e];
    assert Front(g) == log && Last(g) == e;
    ServableFits(e.size);
    Log2FastCeiling(e.size);
  }

  lemma BinLogGrows(log: Log, e: Event, b: nat)
    ensures Gets(log + [e], b) == Gets(log, b) + (if e.Get? && e.bin == b then 1 else 0)
    ensures Puts(log + [e], b) == Puts(log, b) + (if e.Put? && e.bin == b then 1 else 0)
    ensures NetInBin(log + [e], b) == NetInBin(log, b) + (if e.bin != b then 0 else if e.Get? then e.size else 0 - e.size)
  {
    assert Front(log + [e]) == log && Last(log + [e]) == e;
  }

  /** Requested minus freed never goes negative: it is what the in-use lists hold. */
  lemma {:induction false} NetIsHeld(blk: map<Ptr, Block>, lists: map<ListId, seq<Ptr>>, log: Log, i: nat, bins: seq<MemBin>, n: nat)
    requires UsedTies(blk, lists, log, i, bins) && n <= MAX_ALLOC_POWER
    ensures NetSum(log, n) >= 0
  {
    if n != 0 {
      NetIsHeld(blk, lists, log, i, bins, n - 1);
      assert UsedTie(blk, lists, log, i, n - 1, bins[n - 1]);
    }
  }

  // ---------------------------------------------------------------- ties across one allocation or free

  /** A get moves the first free block to the front of the in-use list and gives it a size. */
  ghost predicate Took(s: State, t: State, i: nat, b: nat, h: Ptr, size: nat) {
    var f, u := FreeList(i, b), UsedList(i, b);
    && f in s.lists && u in s.lists && s.lists[f] != [] && s.lists[f][0] == h && h in s.blk
    && t.lists == s.lists[f := Without(s.lists[f], 0)][u := [h] + s.lists[u]]
    && t.blk == s.blk[h := s.blk[h].(own := Taken, size := size)]
  }

  lemma TookTies(s: State, t: State, i: nat, b: nat, h: Ptr, e: Event,
                 bins: seq<MemBin>, bins': seq<MemBin>, log: Log, ring: seq<Ptr>, ringBins: seq<nat>)
    requires Owned(s) && b < MAX_ALLOC_POWER && e.Get? && e.bin == b && Took(s, t, i, b, h, e.size)
    requires AllTies(s.blk, s.lists, i, bins, log, ring, ringBins)
    requires |bins'| == MAX_ALLOC_POWER && bins'[b].numFree == bins[b].numFree - 1
    requires bins' == bins[b := bins[b].(headFree := First(Without(s.lists[FreeList(i, b)], 0)), headInUse := h,
                                         numFree := bins'[b].numFree, allocs := bins[b].allocs + 1)]
    ensures AllTies(t.blk, t.lists, i, bins', log + [e], ring, ringBins)
  {
    var f, u := FreeList(i, b), UsedList(i, b);
    assert ListOf(s.blk, s.lists[f], f) && ListOf(s.blk, s.lists[u], u) && h in s.lists[f];
    assert FreeTie(s.lists, i, b, bins[b]) && UsedTie(s.blk, s.lists, log, i, b, bins[b]);
    forall c | 0 <= c < MAX_ALLOC_POWER
      ensures FreeTie(t.lists, i, c, bins'[c]) && UsedTie(t.blk, t.lists, log + [e], i, c, bins'[c])
    {
      BinLogGrows(log, e, c);
      if c != b {
        assert FreeTie(s.lists, i, c, bins[c]) && UsedTie(s.blk, s.lists, log, i, c, bins[c]);
        assert ListOf(s.blk, s.lists[UsedList(i, c)], UsedList(i, c));
        SumSizesFrame(s.blk, t.blk, s.lists[UsedList(i, c)]);
      } else {
        SumSizesFrame(s.blk, t.blk, s.lists[u]);
        assert ([h] + s.lists[u])[1..] == s.lists[u];
      }
    }
    RingTieKept(s, t, i, ring, ringBins);
  }

  lemma TookSame(s: State, t: State, i: nat, b: nat, h: Ptr, size: nat)
    requires Owned(s) && Took(s, t, i, b, h, size)
    ensures OtherSlotsSame(s, t, i)
  {
    assert ListOf(s.blk, s.lists[FreeList(i, b)], FreeList(i, b)) && h in s.lists[FreeList(i, b)];
  }

  /** The first half of a put: the k-th block of an in-use list comes off it. */
  ghost predicate Left(s: State, t: State, i: nat, b: nat, k: nat, h: Ptr) {
    var u := UsedList(i, b);
    && u in s.lists && k < |s.lists[u]| && s.lists[u][k] == h && h in s.blk
    && t.lists == s.lists[u := Without(s.lists[u], k)]
    && t.blk == s.blk[h := s.blk[h].(own := Loose)]
  }

  lemma LeftTies(s: State, t: State, i: nat, b: nat, k: nat, h: Ptr, e: Event,
                 bins: seq<MemBin>, bins': seq<MemBin>, log: Log, ring: seq<Ptr>, ringBins: seq<nat>)
    requires Owned(s) && b < MAX_ALLOC_POWER && Left(s, t, i, b, k, h)
    requires e.Put? && e.bin == b && e.size == s.blk[h].size
    requires AllTies(s.blk, s.lists, i, bins, log, ring, ringBins)
    requires |bins'| == MAX_ALLOC_POWER
    requires bins' == bins[b := bins[b].(headInUse := First(Without(s.lists[UsedList(i, b)], k)), frees := bins[b].frees + 1)]
    ensures AllTies(t.blk, t.lists, i, bins', log + [e], ring, ringBins)
  {
    var u := UsedList(i, b);
    assert ListOf(s.blk, s.lists[u], u);
    assert UsedTie(s.blk, s.lists, log, i, b, bins[b]);
    forall c | 0 <= c < MAX_ALLOC_POWER
      ensures FreeTie(t.lists, i, c, bins'[c]) && UsedTie(t.blk, t.lists, log + [e], i, c, bins'[c])
    {
      BinLogGrows(log, e, c);
      assert FreeTie(s.lists, i, c, bins[c]) && UsedTie(s.blk, s.lists, log, i, c, bins[c]);
      if c != b {
        assert ListOf(s.blk, s.lists[UsedList(i, c)], UsedList(i, c));
        SumSizesFrame(s.blk, t.blk, s.lists[UsedList(i, c)]);
      } else {
        SumSizesWithout(s.blk, s.lists[u], k);
        SumSizesFrame(s.blk, t.blk, Without(s.lists[u], k)) by {
          forall x | x in Without(s.lists[u], k) ensures x in s.lists[u] { InWithout(s.lists[u], k, x); }
        }
      }
    }
    RingTieKept(s, t, i, ring, ringBins);
  }

  lemma InWithout(s: seq<Ptr>, k: nat, x: Ptr)
    requires k < |s| && x in Without(s, k)
    ensures x in s
  {
  }

  lemma LeftSame(s: State, t: State, i: nat, b: nat, k: nat, h: Ptr)
    requires Owned(s) && Left(s, t, i, b, k, h)
    ensures OtherSlotsSame(s, t, i) && s.blk[h].slot == i && s.blk[h].bin == b
  {
    assert ListOf(s.blk, s.lists[UsedList(i, b)], UsedList(i, b)) && h in s.lists[UsedList(i, b)];
  }

  /** The second half of a put, when freed blocks are delayed. */
  ghost predicate Queued(s: State, t: State, i: nat, h: Ptr) {
    && t.lists.Keys == s.lists.Keys
    && (forall l | l in s.lists && (SlotOf(l) != i || l.UsedList?) :: t.lists[l] == s.lists[l])
    && t.blk.Keys == s.blk.Keys && h in s.blk && s.blk[h].slot == i && t.blk[h] == s.blk[h].(own := Delayed)
    && forall x | x in s.blk && x != h :: DrainedAt(s.blk[x], t.blk[x], i)
  }

  lemma QueuedTies(s: State, t: State, i: nat, h: Ptr, bins: seq<MemBin>, bins': seq<MemBin>, log: Log,
                   ring: seq<Ptr>, ringBins: seq<nat>, ring': seq<Ptr>, ringBins': seq<nat>)
    requires Owned(s) && Queued(s, t, i, h)
    requires AllTies(s.blk, s.lists, i, bins, log, ring, ringBins)
    requires FreeTies(t.lists, i, bins') && SameUse(bins, bins') && RingTie(t.blk, t.lists, i, ring', ringBins')
    ensures AllTies(t.blk, t.lists, i, bins', log, ring', ringBins')
  {
    forall c | 0 <= c < MAX_ALLOC_POWER ensures UsedTie(t.blk, t.lists, log, i, c, bins'[c]) {
      assert UsedTie(s.blk, s.lists, log, i, c, bins[c]);
      UsedTieKept(s, t, i, c, bins[c], log);
    }
  }

  lemma QueuedSame(s: State, t: State, i: nat, h: Ptr)
    requires Queued(s, t, i, h)
    ensures OtherSlotsSame(s, t, i)
    ensures forall x | x in s.blk :: x in t.blk && SameSize(s.blk[x], t.blk[x])
  {
    forall x | x in s.blk ensures x in t.blk && SameSize(s.blk[x], t.blk[x]) {
      assert x != h ==> DrainedAt(s.blk[x], t.blk[x], i);
    }
  }
}
