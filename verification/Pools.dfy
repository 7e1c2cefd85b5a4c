// The bump-allocated memory pools.
module Pools {
  import opened Bits
  import opened Memory

  const MAX_MEM_POOLS := 256
  const MEMPOOL_MIN_EXPAND_SIZE := 1048576000

  /** A block of 2^bin bytes at h, and the guard page behind it. */
  datatype Tile = Tile(h: Ptr, bin: nat)

  function Extent(t: Tile): nat {
    Pow2(t.bin) + PAGE_SIZE
  }

  function TileSum(ts: seq<Tile>): nat {
    if ts == [] then 0 else TileSum(ts[..|ts| - 1]) + Extent(ts[|ts| - 1])
  }

  /** In carve order, each tile starts where the one before it ends. */
  ghost predicate Tiled(start: Ptr, ts: seq<Tile>) {
    forall i {:trigger Abuts(start, ts, i)} | 0 <= i < |ts| :: Abuts(start, ts, i)
  }

  ghost predicate Abuts(start: Ptr, ts: seq<Tile>, i: nat)
    requires i < |ts|
  {
    ts[i].h == start + TileSum(ts[..i])
  }

  lemma TiledAppend(start: Ptr, ts: seq<Tile>, t: Tile)
    requires Tiled(start, ts) && t.h == start + TileSum(ts)
    ensures Tiled(start, ts + [t]) && TileSum(ts + [t]) == TileSum(ts) + Extent(t)
  {
    var us := ts + [t];
    assert us[..|us| - 1] == ts;
    forall i | 0 <= i < |us| ensures Abuts(start, us, i) {
      assert us[..i] == ts[..i];
      assert ts[..|ts|] == ts;
      assert i < |ts| ==> Abuts(start, ts, i);
    }
  }

  ghost predicate Covers(t: Tile, a: Ptr) {
    t.h <= a < t.h + Extent(t)
  }

  /** There are no gaps: every carved address belongs to a tile. */
  lemma {:induction false} TilesCover(start: Ptr, ts: seq<Tile>, a: Ptr)
    requires Tiled(start, ts) && start <= a < start + TileSum(ts)
    ensures exists i | 0 <= i < |ts| :: Covers(ts[i], a)
  {
    var k := |ts| - 1;
    assert Abuts(start, ts, k);
    if a < ts[k].h {
      var us := ts[..k];
      forall i | 0 <= i < |us| ensures Abuts(start, us, i) {
        assert us[..i] == ts[..i] && Abuts(start, ts, i);
      }
      TilesCover(start, us, a);
      var i :| 0 <= i < |us| && Covers(us[i], a);
      assert Covers(ts[i], a);
    } else {
      assert Covers(ts[k], a);
    }
  }

  /** There are no overlaps: it belongs to only one. */
  lemma TilesDisjoint(start: Ptr, ts: seq<Tile>, a: Ptr, i: nat, j: nat)
    requires Tiled(start, ts) && i < |ts| && j < |ts| && Covers(ts[i], a) && Covers(ts[j], a)
    ensures i == j
  {
    if i < j { TilesAscend(start, ts, i, j); }
    if j < i { TilesAscend(start, ts, j, i); }
  }

  lemma {:induction false} TilesAscend(start: Ptr, ts: seq<Tile>, i: nat, j: nat)
    requires Tiled(start, ts) && i < j < |ts|
    ensures ts[i].h + Extent(ts[i]) <= ts[j].h
    decreases j
  {
    var p := ts[..j];
    assert p[..j - 1] == ts[..j - 1];
    assert Abuts(start, ts, j) && Abuts(start, ts, j - 1);
    assert ts[j].h == ts[j - 1].h + Extent(ts[j - 1]);
    if i < j - 1 {
      TilesAscend(start, ts, i, j - 1);
    }
  }

  /** `addNewMemPool` rounds its request to the next page boundary strictly above it. */
  function PoolSize(req: nat): nat {
    (req / PAGE_SIZE + 1) * PAGE_SIZE
  }

  function ExpandRequest(size: nat): nat {
    if MEMPOOL_MIN_EXPAND_SIZE > size then MEMPOOL_MIN_EXPAND_SIZE else size
  }

  /** A pool grown for a page-multiple size always has room for it and its guard page, with not a
      byte to spare once the size reaches the minimum expansion. */
  lemma GrowthIsEnough(size: nat)
    requires size % PAGE_SIZE == 0
    ensures PoolSize(ExpandRequest(size)) % PAGE_SIZE == 0
    ensures PoolSize(ExpandRequest(size)) >= size + PAGE_SIZE
    ensures PoolSize(ExpandRequest(size)) == size + PAGE_SIZE <==> size >= MEMPOOL_MIN_EXPAND_SIZE
  {
  }

  lemma PagesAdd(a: nat, b: nat)
    requires a % PAGE_SIZE == 0 && b % PAGE_SIZE == 0
    ensures (a + b) % PAGE_SIZE == 0
  {
  }

  /** The pool `getFromPool` adds for a block of bin b. */
  function GrowSize(b: nat): nat {
    PoolSize(ExpandRequest(Pow2(b)))
  }

  // ---------------------------------------------------------------- how many pools a request takes

  /** The number of the current pool, and what is left of it. */
  datatype Reserve = Reserve(last: int, room: int)

  /** After one more block of bin b: what is left of a pool too small for it is given up for a new one. */
  function Less(r: Reserve, b: nat): Reserve {
    var e := Pow2(b) + PAGE_SIZE;
    if r.room < e then Reserve(r.last + 1, GrowSize(b) - e) else r.(room := r.room - e)
  }

  /** After n blocks of bin b. */
  function After(r: Reserve, b: nat, n: nat): Reserve {
    if n == 0 then r else Less(After(r, b, n - 1), b)
  }

  /** More blocks never take fewer pools, and never more than one pool each. */
  lemma {:induction false} AfterBounds(r: Reserve, b: nat, m: nat, n: nat)
    requires m <= n
    ensures After(r, b, m).last <= After(r, b, n).last <= After(r, b, m).last + (n - m)
  {
    if m < n {
      AfterBounds(r, b, m, n - 1);
    }
  }

  /** The current pool is enough exactly if all of the blocks fit into what is left of it. */
  lemma {:induction false} RoomIsEnough(r: Reserve, b: nat, n: nat)
    requires r.room >= 0
    ensures After(r, b, n).last == r.last <==> r.room >= Times(n, Pow2(b) + PAGE_SIZE)
    ensures After(r, b, n).last == r.last ==> After(r, b, n).room == r.room - Times(n, Pow2(b) + PAGE_SIZE)
  {
    var e := Pow2(b) + PAGE_SIZE;
    if n == 0 {
      TimesZero(e);
    } else {
      RoomIsEnough(r, b, n - 1);
      AfterBounds(r, b, 0, n - 1);
      MulStep(n - 1, e);
    }
  }

  /** A new pool holds the minimum expansion or the block it is for, whichever is larger, and one page. */
  lemma NewPoolHolds(b: nat)
    requires b >= 12
    ensures GrowSize(b) == (if Pow2(b) > 1048576000 then Pow2(b) else 1048576000) + 4096
  {
    Pow2Pages(b);
    GrowthIsEnough(Pow2(b));
  }

  /** How many blocks of bin b a new pool is good for: one, if they are larger than the minimum expansion. */
  function PerPool(b: nat): nat {
    if Pow2(b) > 1048576000 then 1 else 1048580096 / (Pow2(b) + 4096)
  }

  /** How many blocks of bin b, with their guard pages, have place in so much room. */
  function Fit(room: nat, b: nat): nat {
    room / (Pow2(b) + 4096)
  }

  /** After n blocks k pools have been added, and the current one has given m of them; the first one had place
      for `fit`, each new one has for c. */
  ghost predicate Dealt(r: Reserve, b: nat, n: nat, k: nat, m: nat, fit: nat, c: nat) {
    && After(r, b, n).last == r.last + k
    && After(r, b, n).room == (if k == 0 then r.room else GrowSize(b)) - Times(m, Pow2(b) + 4096)
    && if k == 0 then n == m <= fit else 1 <= m <= c && n == fit + Times(k - 1, c) + m
  }

  lemma DealNext(r: Reserve, b: nat, n: nat, k: nat, m: nat, fit: nat, c: nat) returns (k': nat, m': nat)
    requires Dealt(r, b, n, k, m, fit, c) && c >= 1
    requires After(r, b, n).room < Pow2(b) + 4096 <==> m == if k == 0 then fit else c
    ensures Dealt(r, b, n + 1, k', m', fit, c)
  {
    hide Pow2, GrowSize, Times;
    var e := Pow2(b) + 4096;
    TimesNext(m, e);
    TimesOne(e);
    TimesZero(c);
    if k > 0 { TimesNext(k - 1, c); }
    if After(r, b, n).room < e {
      k', m' := k + 1, 1;
    } else {
      k', m' := k, m + 1;
    }
    assert After(r, b, n + 1) == Less(After(r, b, n), b);
  }

  lemma {:induction false} DealAll(r: Reserve, b: nat, n: nat) returns (k: nat, m: nat)
    requires r.room >= 0 && b >= 12
    ensures Dealt(r, b, n, k, m, Fit(r.room, b), PerPool(b))
  {
    hide Pow2, GrowSize, PerPool, Times, Fit, Less;
    PerPoolFits(b);
    if n == 0 {
      TimesZero(Pow2(b) + 4096);
      k, m := 0, 0;
    } else {
      k, m := DealAll(r, b, n - 1);
      RoomFor(if k == 0 then r.room else GrowSize(b), b, m);
      k, m := DealNext(r, b, n - 1, k, m, Fit(r.room, b), PerPool(b));
    }
  }

  /** Exactly how many pools n blocks of one bin take: none while they fit into what is left of the current one,
      and then one for each PerPool(b) of the rest, rounded up. */
  lemma PoolsTaken(r: Reserve, b: nat, n: nat)
    requires r.room >= 0 && b >= 12
    ensures var fit := Fit(r.room, b); var k := After(r, b, n).last - r.last;
      if k == 0 then n <= fit else k > 0 && fit + Times(k - 1, PerPool(b)) < n <= fit + Times(k, PerPool(b))
  {
    hide Pow2, GrowSize, PerPool, Times, After, Fit;
    var k, m := DealAll(r, b, n);
    if k > 0 { TimesNext(k - 1, PerPool(b)); }
  }

  lemma PerPoolFits(b: nat)
    requires b >= 12
    ensures Fit(GrowSize(b), b) == PerPool(b) >= 1
  {
    NewPoolHolds(b);
    hide GrowSize, Pow2;
    if Pow2(b) <= 1048576000 {
      Quotient(1048580096, Pow2(b) + 4096, 1);
    }
  }

  lemma Quotient(x: nat, e: nat, q: nat)
    requires e > 0 && q * e <= x
    ensures q <= x / e
  {
    var d := x / e;
    assert x < (d + 1) * e;
    MulMono(d + 1, Max(d + 1, q), e);
  }

  lemma TimesNext(a: nat, b: nat)
    ensures Times(a + 1, b) == Times(a, b) + b
  {
    MulStep(a, b);
  }

  lemma TimesOne(b: nat)
    ensures Times(1, b) == b
  {
  }

  /** What is left of `room` after m extents of e bytes is too small for another exactly if all that fit are used. */
  lemma RoomFor(room: nat, b: nat, m: nat)
    requires m <= Fit(room, b)
    ensures var e := Pow2(b) + 4096; room - Times(m, e) >= 0 && (room - Times(m, e) < e <==> m == Fit(room, b))
  {
    hide Pow2;
    var e := Pow2(b) + 4096;
    var d := room / e;
    assert d * e <= room < d * e + e;
    MulMono(m, d, e);
    if m < d { MulMono(m + 1, d, e); MulStep(m, e); }
  }

  /** After blocks of these bins, in order. */
  function AfterEach(r: Reserve, bs: seq<nat>): Reserve {
    if bs == [] then r else Less(AfterEach(r, bs[..|bs| - 1]), bs[|bs| - 1])
  }

  function BytesOf(bs: seq<nat>): nat {
    if bs == [] then 0 else BytesOf(bs[..|bs| - 1]) + Pow2(bs[|bs| - 1]) + 4096
  }

  /** Blocks of any mixture of bins: if none of them takes more than `most` bytes with its guard page, then all
      new pools but the last have given at least 1048580096 - most bytes each to them. */
  lemma {:induction false} MixedPools(r: Reserve, bs: seq<nat>, most: nat)
    requires most <= 1048580096 && forall b | b in bs :: b >= 12 && Pow2(b) + 4096 <= most
    ensures var t := AfterEach(r, bs);
      && t.last >= r.last
      && (t.last > r.last ==>
            Times(t.last - r.last - 1, 1048580096 - most) + (1048580096 - t.room) <= BytesOf(bs) && t.room <= 1048580096)
  {
    hide Pow2, GrowSize, Times;
    if bs != [] {
      var cs, b := bs[..|bs| - 1], bs[|bs| - 1];
      forall x | x in cs ensures x in bs { assert exists i :: 0 <= i < |cs| && bs[i] == x; }
      MixedPools(r, cs, most);
      NewPoolHolds(b) by { assert b in bs; }
      var k := AfterEach(r, cs).last - r.last;
      TimesZero(1048580096 - most);
      if k > 0 { TimesNext(k - 1, 1048580096 - most); }
    }
  }

  /** A pool as a value: where it is, how big it is, and what has been carved from it, in order. */
  datatype PoolView = PoolView(start: Ptr, total: nat, tiles: seq<Tile>)

  function StartFree(v: PoolView): Ptr {
    v.start + TileSum(v.tiles)
  }

  function PoolEnd(v: PoolView): Ptr {
    v.start + v.total
  }

  /** total = carved + remaining, on page boundaries, and the carved part is tiled. */
  ghost predicate GoodPool(v: PoolView) {
    && v.start > 0 && v.start % PAGE_SIZE == 0
    && v.total > 0 && v.total % PAGE_SIZE == 0
    && TileSum(v.tiles) <= v.total && TileSum(v.tiles) % PAGE_SIZE == 0
    && Tiled(v.start, v.tiles)
  }

  lemma CarveGood(v: PoolView, t: Tile)
    requires GoodPool(v) && t.h == StartFree(v) && Pow2(t.bin) % PAGE_SIZE == 0
    requires TileSum(v.tiles) + Extent(t) <= v.total
    ensures GoodPool(v.(tiles := v.tiles + [t]))
    ensures StartFree(v.(tiles := v.tiles + [t])) == StartFree(v) + Extent(t)
  {
    TiledAppend(v.start, v.tiles, t);
    PagesAdd(Pow2(t.bin), PAGE_SIZE);
    PagesAdd(TileSum(v.tiles), Extent(t));
  }

  datatype MemPool = MemPool(
    totalSizeBytes: nat,
    remainingSizeBytes: nat,
    start: Ptr,
    startFree: Ptr,
    end: Ptr)

  /** The redundant fields of a pool agree with what has been carved from it. */
  ghost predicate Shows(p: MemPool, v: PoolView) {
    && p.start == v.start && p.startFree == StartFree(v)
    && p.totalSizeBytes == v.total && p.remainingSizeBytes == v.total - TileSum(v.tiles)
    && p.end == v.start + v.total - 1
  }

  lemma OpenShows(mapStart: Ptr, size: nat)
    requires mapStart > 0 && mapStart % PAGE_SIZE == 0 && size > 0 && size % PAGE_SIZE == 0
    ensures var v := PoolView(mapStart, size, []);
      Shows(MemPool(size, size, mapStart, mapStart, mapStart + size - 1), v) && GoodPool(v)
  {
  }

  lemma CarveShows(p: MemPool, v: PoolView, bin: nat)
    requires Shows(p, v) && GoodPool(v) && Pow2(bin) % PAGE_SIZE == 0 && p.remainingSizeBytes >= Pow2(bin) + PAGE_SIZE
    ensures var w := v.(tiles := v.tiles + [Tile(p.startFree, bin)]);
      && Shows(p.(startFree := p.startFree + (Pow2(bin) + PAGE_SIZE), remainingSizeBytes := p.remainingSizeBytes - (Pow2(bin) + PAGE_SIZE)), w)
      && GoodPool(w)
      && StartFree(w) == p.startFree + Pow2(bin) + PAGE_SIZE && PoolEnd(w) == PoolEnd(v)
  {
    CarveGood(v, Tile(p.startFree, bin));
    TiledAppend(v.start, v.tiles, Tile(p.startFree, bin));
  }

  const NO_TILE := Tile(NULL, 0)

  /** The carved blocks are exactly the tiles of the pools, except for a `raw` tile still being made into one. */
  ghost predicate Laid(pools: seq<PoolView>, bins: map<Ptr, nat>, spot: map<Ptr, (nat, nat)>, raw: Tile) {
    && (forall i | 0 <= i < |pools| :: GoodPool(pools[i]) && TilesKnown(bins, pools[i].tiles, raw))
    && forall h | h in bins :: h in spot && TileAt(pools, spot[h].0, spot[h].1) == Tile(h, bins[h])
  }

  ghost predicate TilesKnown(bins: map<Ptr, nat>, ts: seq<Tile>, raw: Tile) {
    forall k | 0 <= k < |ts| :: ts[k] == raw || (ts[k].h in bins && bins[ts[k].h] == ts[k].bin)
  }

  function TileAt(pools: seq<PoolView>, i: nat, k: nat): Tile {
    if i < |pools| && k < |pools[i].tiles| then pools[i].tiles[k] else NO_TILE
  }

  lemma LaidOpen(pools: seq<PoolView>, bins: map<Ptr, nat>, spot: map<Ptr, (nat, nat)>, v: PoolView)
    requires Laid(pools, bins, spot, NO_TILE) && GoodPool(v) && v.tiles == [] && NULL !in bins
    ensures Laid(pools + [v], bins, spot, NO_TILE)
  {
    forall h | h in bins ensures TileAt(pools + [v], spot[h].0, spot[h].1) == Tile(h, bins[h]) {
      assert TileAt(pools, spot[h].0, spot[h].1) == Tile(h, bins[h]);
    }
  }

  /** The tiles of a pool start at or after the pool does, so none of them is at NULL. */
  lemma KnownTiles(v: PoolView, bins: map<Ptr, nat>, raw: Tile)
    requires GoodPool(v) && TilesKnown(bins, v.tiles, NO_TILE)
    ensures TilesKnown(bins, v.tiles, raw)
  {
    forall k | 0 <= k < |v.tiles| ensures v.tiles[k].h != NULL {
      assert Abuts(v.start, v.tiles, k);
    }
  }

  lemma LaidCarve(pools: seq<PoolView>, bins: map<Ptr, nat>, spot: map<Ptr, (nat, nat)>, v: PoolView, t: Tile)
    requires pools != [] && Laid(pools, bins, spot, NO_TILE) && NULL !in bins
    requires v == pools[|pools| - 1] && GoodPool(v.(tiles := v.tiles + [t]))
    ensures Laid(pools[|pools| - 1 := v.(tiles := v.tiles + [t])], bins, spot, t)
  {
    var w := v.(tiles := v.tiles + [t]);
    var ps := pools[|pools| - 1 := w];
    forall h | h in bins ensures TileAt(ps, spot[h].0, spot[h].1) == Tile(h, bins[h]) {
      TileAtKept(pools, v, t, spot[h].0, spot[h].1);
    }
    KnownTiles(v, bins, t);
    TilesKnownAppend(bins, v.tiles, t);
    forall j | 0 <= j < |ps| ensures GoodPool(ps[j]) && TilesKnown(bins, ps[j].tiles, t) {
      if j < |pools| - 1 {
        KnownTiles(pools[j], bins, t);
      }
    }
  }

  lemma TilesKnownAppend(bins: map<Ptr, nat>, ts: seq<Tile>, t: Tile)
    requires TilesKnown(bins, ts, t)
    ensures TilesKnown(bins, ts + [t], t)
  {
  }

  lemma TileAtKept(pools: seq<PoolView>, v: PoolView, t: Tile, i: nat, k: nat)
    requires pools != [] && v == pools[|pools| - 1] && TileAt(pools, i, k).h != NULL
    ensures TileAt(pools[|pools| - 1 := v.(tiles := v.tiles + [t])], i, k) == TileAt(pools, i, k)
  {
  }

  lemma LaidAdopt(pools: seq<PoolView>, bins: map<Ptr, nat>, spot: map<Ptr, (nat, nat)>, t: Tile)
    requires pools != [] && Laid(pools, bins, spot, t) && t.h !in bins
    requires var ts := pools[|pools| - 1].tiles; ts != [] && ts[|ts| - 1] == t
    ensures Laid(pools, bins[t.h := t.bin], spot[t.h := (|pools| - 1, |pools[|pools| - 1].tiles| - 1)], NO_TILE)
  {
    forall j | 0 <= j < |pools| ensures TilesKnown(bins[t.h := t.bin], pools[j].tiles, NO_TILE) {
      assert TilesKnown(bins, pools[j].tiles, t);
    }
  }
}
