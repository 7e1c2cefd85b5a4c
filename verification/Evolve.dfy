// What a step may do to the blocks it is not about, and what that means for the client.
module Evolve {
  import opened Bits
  import opened Memory
  import opened Lists
  import opened Heap
  import opened Steps

  /** Everything in block y behind its header is untouched. */
  ghost predicate SameBody(m: Mem, m': Mem, y: Ptr, bin: nat) {
    forall x | y + ELM_HDR_BYTES <= x < y + Pow2(bin) && x in m :: x in m' && m'[x] == m[x]
  }

  /** A bystander block stays put, keeps its bytes, and at most leaves quarantine for a free list. */
  ghost predicate KeptAt(m: Mem, m': Mem, y: Ptr, b: Block, b': Block) {
    && b' == b.(own := b'.own)
    && (b'.own == b.own || ((b.own.Delayed? || b.own.Loose?) && (b'.own.Loose? || b'.own.Avail?)))
    && SameBody(m, m', y, b.bin)
  }

  /** From s to t every block except h is a bystander, and new blocks are nobody's. */
  ghost predicate Evolves(s: State, t: State, h: Ptr) {
    && t.hdrSize == s.hdrSize
    && (forall y | y in s.blk && y != h :: y in t.blk && KeptAt(s.mem, t.mem, y, s.blk[y], t.blk[y]))
    && (forall y | y in t.blk && y !in s.blk && y != h :: t.blk[y].own.Loose? || t.blk[y].own.Avail?)
    && s.mem.Keys <= t.mem.Keys
  }

  lemma EvolvesRefl(s: State)
    ensures Evolves(s, s, NULL)
  {
  }

  lemma EvolvesWeaken(s: State, t: State, h: Ptr)
    requires NULL !in s.blk && NULL !in t.blk && Evolves(s, t, NULL)
    ensures Evolves(s, t, h)
  {
    hide KeptAt;
  }

  lemma EvolvesTrans(s: State, t: State, u: State, h: Ptr)
    requires Inv(s) && Evolves(s, t, h) && Evolves(t, u, h)
    ensures Evolves(s, u, h)
  {
    forall y | y in s.blk && y != h ensures y in u.blk && KeptAt(s.mem, u.mem, y, s.blk[y], u.blk[y]) {
      assert KeptAt(s.mem, t.mem, y, s.blk[y], t.blk[y]) && KeptAt(t.mem, u.mem, y, t.blk[y], u.blk[y]);
      BlockFacts(s, y);
    }
    forall y | y in u.blk && y !in s.blk && y != h ensures u.blk[y].own.Loose? || u.blk[y].own.Avail? {
      if y in t.blk {
        assert KeptAt(t.mem, u.mem, y, t.blk[y], u.blk[y]);
      }
    }
  }

  lemma DetachEvolves(s: State, l: ListId, k: nat, h: Ptr)
    requires Inv(s) && l in s.lists && !l.DelayRing? && k < |s.lists[l]| && s.lists[l][k] == h && h in s.blk
    ensures Evolves(s, Detach(s, l, k, h), h)
  {
    UnlinkLinks(s.mem, s.lists[l], k);
    assert ListOf(s.blk, s.lists[l], l);
    RelinkEvolves(s, Unlink(s.mem, h), s.lists[l := Without(s.lists[l], k)], h, Loose, h);
  }

  /** Relinking headers leaves every body alone. */
  lemma LinksEvolve(blk: map<Ptr, Block>, m: Mem, m': Mem, y: Ptr)
    requires Apart(blk) && y in blk && m'.Keys == m.Keys
    requires forall x | x in m && x !in blk :: m'[x] == m[x]
    ensures SameBody(m, m', y, blk[y].bin)
  {
    forall x | y + ELM_HDR_BYTES <= x < y + Pow2(blk[y].bin) && x in m ensures m'[x] == m[x] {
      assert x !in blk;
    }
  }

  lemma RelinkEvolves(s: State, m': Mem, ls: map<ListId, seq<Ptr>>, h: Ptr, own: Owner, main: Ptr)
    requires Apart(s.blk) && h in s.blk && m'.Keys == s.mem.Keys
    requires forall x | x in s.mem && x !in s.blk :: m'[x] == s.mem[x]
    requires h == main || (s.blk[h].own.Loose? && own.Avail?)
    ensures Evolves(s, s.(mem := m', lists := ls, blk := s.blk[h := s.blk[h].(own := own)]), main)
  {
    forall y | y in s.blk ensures SameBody(s.mem, m', y, s.blk[y].bin) {
      LinksEvolve(s.blk, s.mem, m', y);
    }
  }

  lemma AttachEvolves(s: State, l: ListId, h: Ptr, own: Owner, main: Ptr)
    requires Inv(s) && l in s.lists && !l.DelayRing? && h in s.blk && s.blk[h].own.Loose?
    requires h == main || own.Avail?
    ensures Evolves(s, Attach(s, l, h, own), main)
  {
    assert SoundAt(s.mem, s.noAccess, s.hdrSize, h, s.blk[h]);
    assert ListOf(s.blk, s.lists[l], l);
    LinkFrontLinks(s.mem, s.lists[l], h);
    RelinkEvolves(s, LinkFront(s.mem, First(s.lists[l]), h), s.lists[l := [h] + s.lists[l]], h, own, main);
  }

  lemma ProtectEvolves(s: State, q: set<Ptr>, ls: map<ListId, seq<Ptr>>, h: Ptr, own: Owner, main: Ptr)
    requires h in s.blk
    requires h == main || (s.blk[h].own.Delayed? && own.Loose?)
    ensures Evolves(s, s.(noAccess := q, lists := ls, blk := s.blk[h := s.blk[h].(own := own)]), main)
  {
  }

  lemma UnquarantineEvolves(s: State, l: ListId, h: Ptr, bin: nat)
    requires h in s.blk && s.blk[h].own.Delayed?
    ensures Evolves(s, Unquarantine(s, l, h, bin), NULL)
  {
  }

  lemma RewriteEvolves(s: State, m': Mem, h: Ptr, b: Block)
    requires Sound(s) && Apart(s.blk) && h in s.blk
    requires AgreeOutside(s.mem, m', h, Pow2(s.blk[h].bin))
    ensures Evolves(s, s.(mem := m', blk := s.blk[h := b]), h)
  {
  }

  lemma CutEvolves(s: State, size: nat, main: Ptr)
    requires Inv(s) && size + PAGE_SIZE <= s.hi - s.lo
    ensures Evolves(s, Cut(s, size), main)
  {
  }

  lemma GrowEvolves(s: State, start: Ptr, size: nat, main: Ptr)
    requires forall x | start <= x < start + size :: x !in s.mem
    ensures Evolves(s, Grow(s, start, size), main)
  {
  }

  lemma AdoptEvolves(s: State, h: Ptr, slot: nat, bin: nat, main: Ptr)
    requires RawExtent(s, h, Pow2(bin)) && MIN_BIN <= bin
    ensures Evolves(s, Adopt(s, h, slot, bin), main)
  {
    Pow2Pages(bin);
    var m' := Adopt(s, h, slot, bin).mem;
    assert m'.Keys == s.mem.Keys;
    forall y | y in s.blk ensures SameBody(s.mem, m', y, s.blk[y].bin) {
    }
  }

  // ---------------------------------------------------------------- the client's view

  /** The live pointer into block h, if there is one. */
  function Own(blk: map<Ptr, Block>, h: Ptr): set<Ptr> {
    if h in blk && blk[h].own.Used? then {blk[h].usr} else {}
  }

  lemma LiveUnique(s: State, p: Ptr, h: Ptr)
    requires Apart(s.blk) && Sound(s) && LiveAt(s, p, h)
    ensures IsLive(s, p) && HeaderOf(s, p) == h && p != NULL
  {
    assert SoundAt(s.mem, s.noAccess, s.hdrSize, h, s.blk[h]);
    UsrInjective(s, h, HeaderOf(s, p));
  }

  lemma ContentsAt(s: State, p: Ptr, h: Ptr)
    requires Apart(s.blk) && Sound(s) && LiveAt(s, p, h)
    ensures IsLive(s, p) && Mapped(s.mem, p, s.blk[h].size)
    ensures h + ELM_HDR_BYTES <= p || s.hdrSize < ELM_HDR_BYTES
    ensures p + s.blk[h].size <= h + Pow2(s.blk[h].bin)
    ensures Contents(s, p) == Cells(s.mem, p, s.blk[h].size)
  {
    LiveUnique(s, p, h);
    assert SoundAt(s.mem, s.noAccess, s.hdrSize, h, s.blk[h]);
  }

  lemma LiveKept(s: State, t: State, h: Ptr, p: Ptr)
    requires s.hdrSize >= ELM_HDR_BYTES && Sound(s) && Apart(s.blk) && Sound(t) && Apart(t.blk) && Evolves(s, t, h)
    requires IsLive(s, p) && p !in Own(s.blk, h)
    ensures IsLive(t, p) && p !in Own(t.blk, h)
    ensures Contents(t, p) == Contents(s, p)
  {
    var y := HeaderOf(s, p);
    assert KeptAt(s.mem, t.mem, y, s.blk[y], t.blk[y]);
    assert LiveAt(t, p, y);
    if p in Own(t.blk, h) {
      LiveUnique(t, p, y);
      LiveUnique(t, p, h);
    }
    ContentsAt(s, p, y);
    ContentsAt(t, p, y);
    CellsKept(s.mem, t.mem, p, s.blk[y].size);
  }

  lemma CellsKept(m: Mem, m': Mem, p: Ptr, n: nat)
    requires Mapped(m, p, n) && SameOn(m, m', p, n)
    ensures Mapped(m', p, n) && Cells(m', p, n) == Cells(m, p, n)
  {
  }

  lemma LiveKeptBack(s: State, t: State, h: Ptr, p: Ptr)
    requires Sound(s) && Apart(s.blk) && Sound(t) && Apart(t.blk) && Evolves(s, t, h)
    requires IsLive(t, p) && p !in Own(t.blk, h)
    ensures IsLive(s, p) && p !in Own(s.blk, h)
  {
    var y := HeaderOf(t, p);
    assert y in s.blk && KeptAt(s.mem, t.mem, y, s.blk[y], t.blk[y]);
    assert LiveAt(s, p, y);
    if p in Own(s.blk, h) {
      LiveUnique(s, p, y);
      LiveUnique(s, p, h);
    }
  }

  ghost predicate Good(s: State) {
    s.hdrSize >= ELM_HDR_BYTES && Sound(s) && Apart(s.blk)
  }

  lemma ClientKept(s: State, t: State, h: Ptr, p: Ptr)
    requires Good(s) && Good(t) && Evolves(s, t, h) && p in Client(s) && p !in Own(s.blk, h)
    ensures p in Client(t) && p !in Own(t.blk, h) && Client(t)[p] == Client(s)[p]
  {
    LiveKept(s, t, h, p);
  }

  lemma ClientKeptBack(s: State, t: State, h: Ptr, p: Ptr)
    requires Good(s) && Good(t) && Evolves(s, t, h) && p in Client(t) && p !in Own(t.blk, h)
    ensures p in Client(s) && p !in Own(s.blk, h)
  {
    LiveKeptBack(s, t, h, p);
  }

  /** Apart from the block a step is about, the client's view does not change. */
  lemma EvolvesClient(s: State, t: State, h: Ptr)
    requires Good(s) && Good(t) && Evolves(s, t, h)
    ensures Client(t) - Own(t.blk, h) == Client(s) - Own(s.blk, h)
  {
    var c, d := Client(s), Client(t);
    var o, u := Own(s.blk, h), Own(t.blk, h);
    assert forall p :: p in c - o ==> p in d - u && d[p] == c[p] by {
      forall p | p in c - o ensures p in d - u && d[p] == c[p] { ClientKept(s, t, h, p); }
    }
    assert forall p :: p in d - u ==> p in c - o by {
      forall p | p in d - u ensures p in c - o { ClientKeptBack(s, t, h, p); }
    }
    SameMap(c - o, d - u);
  }

  lemma SameMap<K, V>(a: map<K, V>, b: map<K, V>)
    requires forall k :: k in a ==> k in b && b[k] == a[k]
    requires forall k :: k in b ==> k in a
    ensures a == b
  {
  }
}
