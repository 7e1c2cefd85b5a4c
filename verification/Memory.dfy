// The process address space: typed cells, page protection, and the kernel calls the allocator makes.
module Memory {

  type Ptr = nat

  const NULL: Ptr := 0
  const PAGE_SIZE := 4096
  const WORD_SIZE := 8
  // sizeof(ElmHdr) without its trailing trace slots
  const ELM_HDR_BYTES := 64
  // One past the largest user-space address
  const ADDR_LIMIT := 0x8000_0000_0000

  const MAGIC_INUSE := 0x4ef9e433f005ba11
  const MAGIC_FREE := 0xcd656727bedabb1e
  const MAGIC_GUARD := 0xfd44ba54deadbabe

  datatype ElmHdr = ElmHdr(
    magic: nat,
    binNum: nat,
    slotNum: nat,
    usrData: Ptr,
    usrDataSize: nat,
    misalignment: nat,
    next: Ptr,
    prev: Ptr)

  /** What one address holds.  A multi-byte object fills several cells, each knowing its place in
      the object, so a store that overlaps an object destroys it and a later load can tell. */
  datatype Cell =
    | Byte(b: nat)
    | Word(w: nat, k: nat)
    | Hdr(hdr: ElmHdr)
    | HdrTail(k: nat)

  type Mem = map<Ptr, Cell>

  /** Fresh pages overlaid with a header read as all zeroes. */
  const ZERO_HDR := ElmHdr(0, 0, 0, 0, 0, 0, 0, 0)

  predicate HasHdr(m: Mem, h: Ptr) {
    h in m && m[h].Hdr?
  }

  /** An intact header at h. */
  predicate IsHdr(m: Mem, h: Ptr) {
    HasHdr(m, h) && forall x | h < x < h + ELM_HDR_BYTES :: x in m && m[x] == HdrTail(x - h)
  }

  /** An intact 8-byte word w at a. */
  predicate IsWord(m: Mem, a: Ptr, w: nat) {
    forall x | a <= x < a + WORD_SIZE :: x in m && m[x] == Word(w, x - a)
  }

  predicate IsFilled(m: Mem, a: Ptr, n: nat, v: nat) {
    forall x | a <= x < a + n :: x in m && m[x] == Byte(v)
  }

  predicate Mapped(m: Mem, a: Ptr, n: nat) {
    forall x | a <= x < a + n :: x in m
  }

  predicate Reachable(noAccess: set<Ptr>, a: Ptr, n: nat) {
    forall x | a <= x < a + n :: x !in noAccess
  }

  predicate Blocked(noAccess: set<Ptr>, a: Ptr, n: nat) {
    forall x | a <= x < a + n :: x in noAccess
  }

  predicate Within(x: Ptr, a: Ptr, n: nat) {
    a <= x < a + n
  }

  /** The addresses of [a, a + n). */
  function Range(a: Ptr, n: nat): (r: set<Ptr>)
    ensures forall x :: x in r <==> a <= x < a + n
  {
    set x: Ptr | a <= x < a + n && Within(x, a, n)
  }

  function Fill(m: Mem, a: Ptr, n: nat, v: nat): Mem {
    m + (map x | x in Range(a, n) :: Byte(v))
  }

  function PutWord(m: Mem, a: Ptr, w: nat): Mem {
    m + (map x | x in Range(a, WORD_SIZE) :: Word(w, x - a))
  }

  function PutHdr(m: Mem, h: Ptr, hdr: ElmHdr): Mem {
    m[h := Hdr(hdr)]
  }

  function OverlayHdr(m: Mem, h: Ptr, hdr: ElmHdr): Mem {
    m + (map x | x in Range(h, ELM_HDR_BYTES) :: if x == h then Hdr(hdr) else HdrTail(x - h))
  }

  function Copy(m: Mem, dst: Ptr, src: Ptr, n: nat): Mem
    requires Mapped(m, src, n)
  {
    m + (map x | x in Range(dst, n) :: m[src + (x - dst)])
  }

  /** The cells a client sees at [a, a + n). */
  function Cells(m: Mem, a: Ptr, n: nat): (s: seq<Cell>)
    requires Mapped(m, a, n)
    ensures |s| == n && forall i | 0 <= i < n :: s[i] == m[a + i]
  {
    seq(n, i requires 0 <= i < n => assert a + i in m; m[a + i])
  }

  /** m' differs from m only inside [a, a + n). */
  predicate AgreeOutside(m: Mem, m': Mem, a: Ptr, n: nat) {
    m'.Keys == m.Keys && forall x | x in m && !(a <= x < a + n) :: m'[x] == m[x]
  }

  class AddressSpace {
    var mem: Mem
    // Addresses on PROT_NONE pages
    var noAccess: set<Ptr>
    // Nothing is mapped at or above this address
    var top: Ptr
    // How often the kernel has refused to map memory
    ghost var refusals: nat

    ghost predicate Valid()
      reads this
    {
      (forall x | x in mem :: x < top) && noAccess <= mem.Keys
    }

    predicate CanUse(a: Ptr, n: nat)
      reads this
    {
      forall x | a <= x < a + n :: x in mem && x !in noAccess
    }

    constructor ()
      ensures Valid() && mem == map[] && noAccess == {} && refusals == 0
    {
      mem, noAccess, top := map[], {}, PAGE_SIZE;
      refusals := 0;
    }

    /** Either fails, leaving everything alone, or maps a fresh zeroed page-aligned region. */
    method Mmap(size: nat) returns (start: Ptr)
      requires Valid()
      modifies this
      ensures Valid() && noAccess == old(noAccess)
      ensures start == NULL ==> mem == old(mem) && refusals == old(refusals) + 1
      ensures start != NULL ==> start % PAGE_SIZE == 0 && start + size <= ADDR_LIMIT && refusals == old(refusals)
      ensures start != NULL ==> forall x | start <= x < start + size :: x !in old(mem)
      ensures start != NULL ==> mem == Fill(old(mem), start, size, 0)
    {
      var refuse: bool := *;
      var gap: nat :| gap >= 0;
      start := (top / PAGE_SIZE + 1 + gap) * PAGE_SIZE;
      if refuse || start + size > ADDR_LIMIT {
        refusals := refusals + 1;
        return NULL;
      }
      mem := Fill(mem, start, size, 0);
      top := start + size;
    }

    method Mprotect(a: Ptr, len: nat, allow: bool)
      requires Valid()
      requires a % PAGE_SIZE == 0 && len % PAGE_SIZE == 0 && Mapped(mem, a, len)
      modifies this`noAccess
      ensures Valid()
      ensures noAccess == if allow then old(noAccess) - Range(a, len) else old(noAccess) + Range(a, len)
    {
      noAccess := if allow then noAccess - Range(a, len) else noAccess + Range(a, len);
    }

    function LoadHdr(h: Ptr): ElmHdr
      reads this
      requires IsHdr(mem, h) && CanUse(h, ELM_HDR_BYTES)
    {
      mem[h].hdr
    }

    method StoreHdr(h: Ptr, hdr: ElmHdr)
      requires Valid() && IsHdr(mem, h) && CanUse(h, ELM_HDR_BYTES)
      modifies this`mem
      ensures Valid() && mem == PutHdr(old(mem), h, hdr)
    {
      mem := PutHdr(mem, h, hdr);
      assert mem.Keys == old(mem).Keys;
    }

    /** First header store into zeroed memory. */
    method StoreFirstHdr(h: Ptr, hdr: ElmHdr)
      requires Valid() && IsFilled(mem, h, ELM_HDR_BYTES, 0) && CanUse(h, ELM_HDR_BYTES)
      modifies this`mem
      ensures Valid() && mem == OverlayHdr(old(mem), h, hdr)
    {
      mem := OverlayHdr(mem, h, hdr);
      assert mem.Keys == old(mem).Keys;
    }

    method StoreWord(a: Ptr, w: nat)
      requires Valid() && CanUse(a, WORD_SIZE)
      modifies this`mem
      ensures Valid() && mem == PutWord(old(mem), a, w)
    {
      mem := PutWord(mem, a, w);
      assert mem.Keys == old(mem).Keys;
    }

    function LoadWord(a: Ptr): nat
      reads this
      requires CanUse(a, WORD_SIZE) && exists w :: IsWord(mem, a, w)
    {
      mem[a].w
    }

    method Memset(a: Ptr, v: nat, n: nat)
      requires Valid() && CanUse(a, n)
      modifies this`mem
      ensures Valid() && mem == Fill(old(mem), a, n, v)
    {
      mem := Fill(mem, a, n, v);
      assert mem.Keys == old(mem).Keys;
    }

    /** memcmp of [a, a + n) against n copies of v. */
    predicate Holds(a: Ptr, n: nat, v: nat)
      reads this
      requires CanUse(a, n)
    {
      IsFilled(mem, a, n, v)
    }

    /** memcpy: the regions must not overlap. */
    method Memcpy(dst: Ptr, src: Ptr, n: nat)
      requires Valid() && CanUse(dst, n) && CanUse(src, n)
      requires dst + n <= src || src + n <= dst
      modifies this`mem
      ensures Valid() && Mapped(old(mem), src, n) && mem == Copy(old(mem), dst, src, n)
    {
      mem := Copy(mem, dst, src, n);
      assert mem.Keys == old(mem).Keys;
    }

    /** Mark a guard page so that a core dump shows it, then make it inaccessible. */
    method PostGuard(a: Ptr)
      requires Valid() && CanUse(a, PAGE_SIZE) && a % PAGE_SIZE == 0
      modifies this`mem, this`noAccess
      ensures Valid() && mem == PutWord(old(mem), a, MAGIC_GUARD) && noAccess == old(noAccess) + Range(a, PAGE_SIZE)
    {
      StoreWord(a, MAGIC_GUARD);
      Mprotect(a, PAGE_SIZE, false);
    }
  }

  lemma HdrUsable(space: AddressSpace, h: Ptr)
    requires IsHdr(space.mem, h) && Reachable(space.noAccess, h, ELM_HDR_BYTES)
    ensures space.CanUse(h, ELM_HDR_BYTES)
  {
  }

  /** An intact, accessible word is loaded as it was stored. */
  lemma LoadsBack(space: AddressSpace, a: Ptr, w: nat)
    requires IsWord(space.mem, a, w) && Reachable(space.noAccess, a, WORD_SIZE)
    ensures space.CanUse(a, WORD_SIZE) && (exists v :: IsWord(space.mem, a, v)) && space.LoadWord(a) == w
  {
    assert space.mem[a] == Word(w, 0);
  }
}
