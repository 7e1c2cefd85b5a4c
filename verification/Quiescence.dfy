// Between calls the allocator is a state from which threads may start.
module Quiescence {
  import opened Heap
  import opened Ties
  import opened Slots
  import opened Pools
  import opened UserData
  import A = Allocator
  import D = DelayFree
  import I = Interleaving
  import M = Moves
  import P = Progress

  function WaterOf(bins: seq<MemBin>): seq<I.Water> {
    seq(|bins|, b requires 0 <= b < |bins| => I.Water(bins[b].lowWater, bins[b].highWater))
  }

  ghost function SettingOf(g: A.GuardRails): I.Setting
    reads g.memSlots
  {
    I.Setting(g.cfg.numSlots, g.cfg.delayCap, g.cfg.useDelay,
              seq(|g.memSlots|, i requires 0 <= i < |g.memSlots| reads g.memSlots => WaterOf(g.memSlots[i].memBins)))
  }

  /** The allocator as it is, with any number of threads, all of them in the program. */
  ghost function MachineOf(g: A.GuardRails, threads: set<I.Tid>): I.Machine
    reads g, g.space, g.Rings()
  {
    I.Machine(g.Snap(), map t | t in threads :: I.Idle, map[],
              map h | h in g.blk && g.blk[h].own.Used? :: I.Program,
              map i: nat | i < |g.memSlots| :: g.Puts()[i])
  }

  /** Threads may start from any state the sequential calls leave, as long as the program has written in
      bounds so far; what is proved of interleaved runs then holds from there on. */
  lemma CalmStarts(g: A.GuardRails, threads: set<I.Tid>)
    requires g.Calm() && SlopOk(g.Snap())
    ensures I.Start(SettingOf(g), MachineOf(g, threads))
  {
    hide Inv, SlopOk, MemSlot.Tied, Tally, Laid, GoodPool, ListsOk, I.OnTime, WaterOf;
    CalmHeap(g);
    CalmRings(g, threads);
  }

  lemma CalmHeap(g: A.GuardRails)
    requires g.Calm()
    ensures M.HeapGood(g.Snap())
  {
    hide Inv, MemSlot.Tied, Tally, Laid, GoodPool, ListsOk;
  }

  lemma CalmRings(g: A.GuardRails, threads: set<I.Tid>)
    requires g.Calm()
    ensures forall i: nat | i < g.cfg.numSlots :: I.OnTime(SettingOf(g), MachineOf(g, threads), i)
  {
    hide Inv, Tally, FreeTies, UsedTies, D.MemFreeDelay.Contents, D.Released, WaterOf;
    forall i: nat | i < g.cfg.numSlots ensures I.OnTime(SettingOf(g), MachineOf(g, threads), i) {
      var slot := g.memSlots[i];
      assert slot.Tied(g.blk, g.lists);
      assert I.PutsOf(MachineOf(g, threads), i) == slot.delay.puts;
    }
  }

  /** So a ring that is on schedule in the one model is on schedule in the other. */
  lemma CalmScheduled(g: A.GuardRails, threads: set<I.Tid>)
    requires g.Calm() && SlopOk(g.Snap())
    ensures I.Consistent(SettingOf(g), MachineOf(g, threads)) && P.Scheduled(SettingOf(g), MachineOf(g, threads))
  {
    hide I.Consistent, I.Start, P.Scheduled, SlopOk, WaterOf;
    CalmStarts(g, threads);
    I.StartConsistent(SettingOf(g), MachineOf(g, threads));
    P.StartScheduled(SettingOf(g), MachineOf(g, threads));
  }

  /** A thread starts carving for a bin exactly if the sequential refill would carve anything, and goes on exactly
      while the bin is below its high-water mark. */
  lemma RefillAgrees(g: A.GuardRails, i: nat, b: nat)
    requires g.Calm() && i < |g.memSlots| && b < MAX_ALLOC_POWER && |g.memSlots[i].memBins| == MAX_ALLOC_POWER
    ensures var bin := g.memSlots[i].memBins[b];
      && (I.WantsMore(SettingOf(g), g.Snap(), i, b, false) <==> !A.Replenished(bin, bin.numFree))
      && (I.WantsMore(SettingOf(g), g.Snap(), i, b, true) <==> bin.numFree < bin.highWater)
  {
    hide Inv, Tally, Laid, GoodPool, ListsOk, UsedTies, D.MemFreeDelay.Contents, D.Released;
    var slot := g.memSlots[i];
    assert slot.Tied(g.blk, g.lists);
    BinFacts(slot, g.blk, g.lists, b);
  }

  /** So threads find every small bin in stock. */
  lemma CalmStock(g: A.GuardRails, threads: set<I.Tid>, i: nat, b: nat)
    requires g.Calm() && i < |g.memSlots| && 12 <= b < 18
    ensures I.MarkOf(SettingOf(g), i, b) == I.Water(100, 200)
    ensures P.Stock(MachineOf(g, threads), i, b) >= 99
  {
    hide Inv, Tally, Laid, GoodPool, ListsOk, UsedTies, D.MemFreeDelay.Contents, D.Released;
    var slot := g.memSlots[i];
    assert slot.Tied(g.blk, g.lists) && A.InStock(slot.memBins);
    BinFacts(slot, g.blk, g.lists, b);
  }
}
