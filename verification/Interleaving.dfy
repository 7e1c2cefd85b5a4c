// Threads inside the allocator.  Every list move, pool operation, unlocked header access and assertion is
// a step of its own, and the steps of different threads interleave freely, subject only to the slot locks.
module Interleaving {
  import opened Bits
  import opened Memory
  import opened Lists
  import opened Heap
  import opened Steps
  import opened Evolve
  import opened UserData
  import opened Calls
  import opened Pools
  import opened Slots
  import opened Moves
  import opened Runs
  import D = DelayFree
  import T = Ties
  import L = Layout

  type Tid = nat

  datatype Request = Request(alignment: nat, size: nat)

  /** Where a thread is: i is the slot whose lock it holds, b the bin, h the block it works on. */
  datatype Pc =
    | Idle
    // getBuf and memalignInt
    | Replenish(i: nat, b: nat, req: Request, again: bool)
    | Fresh(i: nat, b: nat, h: Ptr, req: Request)
    | Popped(i: nat, b: nat, h: Ptr, req: Request)
    | Listed(i: nat, b: nat, h: Ptr, req: Request)
    | Vetting(h: Ptr, req: Request)
    | Filling(h: Ptr, req: Request)
    // free and putBuf
    | Called(h: Ptr)
    | Entered(h: Ptr)
    | Checked(h: Ptr)
    | Stamped(h: Ptr)
    | Locked(i: nat, b: nat, h: Ptr)
    | Removed(i: nat, b: nat, h: Ptr)
    | Draining(i: nat, b: nat, h: Ptr)
    | Released(i: nat, b: nat, h: Ptr, g: Ptr, d: nat)
    | Queueing(i: nat, b: nat, h: Ptr)
    | Retiring(i: nat, b: nat, h: Ptr)

  /** Who a block has been handed to: the program, or a thread inside the allocator. */
  datatype Holder = Program | Thread(t: Tid)

  /** Besides the heap: where each thread is, who holds each slot's lock, who has each block, and every block
      each slot has delayed. */
  datatype Machine = Machine(
    heap: State,
    pcs: map<Tid, Pc>,
    locks: map<nat, Tid>,
    hand: map<Ptr, Holder>,
    puts: map<nat, seq<Ptr>>)

  /** The water marks of a bin. */
  datatype Water = Water(low: nat, high: nat)

  datatype Setting = Setting(numSlots: nat, cap: nat, useDelay: bool, marks: seq<seq<Water>>)

  function MarkOf(c: Setting, i: nat, b: nat): Water {
    if i < |c.marks| && b < |c.marks[i]| then c.marks[i][b] else Water(0, 0)
  }

  /** Whether `replenishBin` carves: on entry if the bin is empty or low, and again until it is at its high mark. */
  predicate WantsMore(c: Setting, s: State, i: nat, b: nat, again: bool) {
    var n := |ListAt(s.lists, FreeList(i, b))|;
    if again then n < MarkOf(c, i, b).high else n == 0 || n < MarkOf(c, i, b).low
  }

  datatype Action =
    | Ask(slot: nat, request: Request)      // 341-353: any slot, whatever the racy counter said
    | Carve(start: Ptr)                     // 207-239, 264-266
    | PushNew                               // 267-268
    | GiveUp                                // 211-214, 356-359
    | Pop                                   // 364-365
    | PushUsed                              // 366-368
    | Unlock                                // 390
    | Vet                                   // 393
    | Fill(mem: Mem, usr: Ptr)              // 633-666
    | CallFree(victim: Ptr)                 // the program calls free
    | CheckFree                             // 727-735
    | CheckPut                              // 402
    | Stamp                                 // 403
    | LockPut                               // 405-408
    | PopUsed(k: nat)                       // 417
    | PushFree                              // 422-428
    | TestRing                              // DelayFree.c:99
    | DrainGet                              // DelayFree.c:76-88
    | PushDrained                           // DelayFree.c:90-92
    | DrainDone                             // DelayFree.c:76
    | Queue                                 // DelayFree.c:103-107
    | Write(target: Ptr, image: Mem)        // the program writes inside an allocation of its own

  function HdrAt(m: Mem, h: Ptr): ElmHdr {
    if HasHdr(m, h) then m[h].hdr else ZERO_HDR
  }

  function Ring(s: State, i: nat): seq<Ptr> {
    ListAt(s.lists, DelayRing(i))
  }

  function PutsOf(m: Machine, i: nat): seq<Ptr> {
    if i in m.puts then m.puts[i] else []
  }

  function AllocOf(s: State, req: Request): nat {
    L.AllocSize(s.hdrSize, req.alignment, req.size)
  }

  function Room(s: State): int {
    s.hi - s.lo
  }

  ghost predicate Unmapped(m: Mem, start: Ptr, size: nat) {
    0 < start && start % PAGE_SIZE == 0 && forall a | start <= a < start + size :: a !in m
  }

  /** The pool a block of bin b is carved from: a new one mapped at `start` if the current one is too small. */
  function Roomy(s: State, b: nat, start: Ptr): State {
    if Room(s) < Pow2(b) + PAGE_SIZE then Grow(s, start, GrowSize(b)) else s
  }

  function Resize(s: State, h: Ptr, size: nat): State {
    if h in s.blk then s.(blk := s.blk[h := s.blk[h].(size := size)]) else s
  }

  /** Memory and ownership after `hdr->magic = MAGIC_FREE`. */
  function Stamping(s: State, h: Ptr): State {
    s.(mem := PutHdr(s.mem, h, HdrAt(s.mem, h).(magic := MAGIC_FREE)), blk := Reown(s.blk, h, Leaving))
  }

  ghost predicate FillsAt(s: State, h: Ptr, req: Request, mem: Mem, usr: Ptr) {
    && h in s.blk && req.size <= h + Pow2(s.blk[h].bin)
    && Furnished(s.mem, mem, h, s.blk[h].bin, usr, req.size, L.Misalignment(h + Pow2(s.blk[h].bin), req.alignment, req.size))
  }

  function Commit(s: State, h: Ptr, mem: Mem, usr: Ptr): State {
    if h in s.blk then s.(mem := mem, blk := s.blk[h := s.blk[h].(own := Used, usr := usr)]) else s
  }

  ghost predicate InBounds(s: State, h: Ptr, mem: Mem) {
    h in s.blk && AgreeOutside(s.mem, mem, s.blk[h].usr, s.blk[h].size)
  }

  // `getBuf` locks a slot: any slot, whatever the racy counter said
  ghost predicate Asks(c: Setting, m: Machine, t: Tid, i: nat, req: Request, m': Machine)
    requires t in m.pcs
  {
    var s := m.heap;
    var pc := m.pcs[t];
    && pc.Idle? && i < c.numSlots && i !in m.locks && L.Servable(AllocOf(s, req))
    && m' == m.(pcs := m.pcs[t := Replenish(i, L.BinFor(AllocOf(s, req)), req, false)], locks := m.locks[i := t])
  }

  // `getFromPool` and the header stores of `replenishBin`
  ghost predicate Carves(c: Setting, m: Machine, t: Tid, start: Ptr, m': Machine)
    requires t in m.pcs
  {
    var s := m.heap;
    var pc := m.pcs[t];
    && pc.Replenish? && WantsMore(c, s, pc.i, pc.b, pc.again)
    && (Room(s) < Pow2(pc.b) + PAGE_SIZE ==> Unmapped(s.mem, start, GrowSize(pc.b)))
    && var u := Roomy(s, pc.b, start);
       m' == m.(heap := CarveFrom(u, pc.i, pc.b),
                pcs := m.pcs[t := Fresh(pc.i, pc.b, u.lo, pc.req)],
                hand := m.hand[u.lo := Thread(t)])
  }

  // `replenishBin` puts the new block on the free list
  ghost predicate PushesNew(c: Setting, m: Machine, t: Tid, m': Machine)
    requires t in m.pcs
  {
    var s := m.heap;
    var pc := m.pcs[t];
    && pc.Fresh?
    && m' == m.(heap := Attach(s, FreeList(pc.i, pc.b), pc.h, Avail),
                pcs := m.pcs[t := Replenish(pc.i, pc.b, pc.req, true)],
                hand := m.hand - {pc.h})
  }

  // The kernel refuses more memory
  ghost predicate GivesUp(c: Setting, m: Machine, t: Tid, m': Machine)
    requires t in m.pcs
  {
    var s := m.heap;
    var pc := m.pcs[t];
    && pc.Replenish? && WantsMore(c, s, pc.i, pc.b, pc.again) && Room(s) < Pow2(pc.b) + PAGE_SIZE
    && m' == m.(pcs := m.pcs[t := Idle], locks := m.locks - {pc.i})
  }

  // `rmElm` from the free list
  ghost predicate Pops(c: Setting, m: Machine, t: Tid, m': Machine)
    requires t in m.pcs
  {
    var s := m.heap;
    var pc := m.pcs[t];
    && pc.Replenish? && !WantsMore(c, s, pc.i, pc.b, pc.again) && ListAt(s.lists, FreeList(pc.i, pc.b)) != []
    && var h := First(ListAt(s.lists, FreeList(pc.i, pc.b)));
       m' == m.(heap := Detach(s, FreeList(pc.i, pc.b), 0, h),
                pcs := m.pcs[t := Popped(pc.i, pc.b, h, pc.req)],
                hand := m.hand[h := Thread(t)])
  }

  // `insertElmHead` to the in-use list, and the counting
  ghost predicate PushesUsed(c: Setting, m: Machine, t: Tid, m': Machine)
    requires t in m.pcs
  {
    var s := m.heap;
    var pc := m.pcs[t];
    && pc.Popped?
    && m' == m.(heap := Resize(Attach(s, UsedList(pc.i, pc.b), pc.h, Taken), pc.h, pc.req.size),
                pcs := m.pcs[t := Listed(pc.i, pc.b, pc.h, pc.req)])
  }

  // `getBuf` unlocks the slot
  ghost predicate Unlocks(c: Setting, m: Machine, t: Tid, m': Machine)
    requires t in m.pcs
  {
    var pc := m.pcs[t];
    && pc.Listed? && m' == m.(pcs := m.pcs[t := Vetting(pc.h, pc.req)], locks := m.locks - {pc.i})
  }

  // The first check that the block is still marked free
  ghost predicate Vets(c: Setting, m: Machine, t: Tid, m': Machine)
    requires t in m.pcs
  {
    var pc := m.pcs[t];
    && pc.Vetting? && m' == m.(pcs := m.pcs[t := Filling(pc.h, pc.req)])
  }

  // The second such check, and everything `memalignInt` writes
  ghost predicate Fills(c: Setting, m: Machine, t: Tid, mem: Mem, usr: Ptr, m': Machine)
    requires t in m.pcs
  {
    var s := m.heap;
    var pc := m.pcs[t];
    && pc.Filling? && FillsAt(s, pc.h, pc.req, mem, usr)
    && m' == m.(heap := Commit(s, pc.h, mem, usr), pcs := m.pcs[t := Idle], hand := m.hand[pc.h := Program])
  }

  // The program calls free
  ghost predicate CallsFree(c: Setting, m: Machine, t: Tid, h: Ptr, m': Machine)
    requires t in m.pcs
  {
    var pc := m.pcs[t];
    && pc.Idle? && h in m.hand && m.hand[h] == Program
    && m' == m.(pcs := m.pcs[t := Called(h)], hand := m.hand[h := Thread(t)])
  }

  // The checks of `free`
  ghost predicate ChecksFree(c: Setting, m: Machine, t: Tid, m': Machine)
    requires t in m.pcs
  {
    var pc := m.pcs[t];
    && pc.Called? && m' == m.(pcs := m.pcs[t := Entered(pc.h)])
  }

  // The check of `putBuf`
  ghost predicate ChecksPut(c: Setting, m: Machine, t: Tid, m': Machine)
    requires t in m.pcs
  {
    var pc := m.pcs[t];
    && pc.Entered? && m' == m.(pcs := m.pcs[t := Checked(pc.h)])
  }

  // `hdr->magic = MAGIC_FREE`
  ghost predicate Stamps(c: Setting, m: Machine, t: Tid, m': Machine)
    requires t in m.pcs
  {
    var s := m.heap;
    var pc := m.pcs[t];
    && pc.Checked? && m' == m.(heap := Stamping(s, pc.h), pcs := m.pcs[t := Stamped(pc.h)])
  }

  // `putBuf` locks the slot named in the header
  ghost predicate LocksPut(c: Setting, m: Machine, t: Tid, m': Machine)
    requires t in m.pcs
  {
    var s := m.heap;
    var pc := m.pcs[t];
    && pc.Stamped?
    && var e := HdrAt(s.mem, pc.h);
       e.slotNum !in m.locks
       && m' == m.(pcs := m.pcs[t := Locked(e.slotNum, e.binNum, pc.h)], locks := m.locks[e.slotNum := t])
  }

  // `rmElm` from the in-use list
  ghost predicate PopsUsed(c: Setting, m: Machine, t: Tid, k: nat, m': Machine)
    requires t in m.pcs
  {
    var s := m.heap;
    var pc := m.pcs[t];
    && pc.Locked? && At(ListAt(s.lists, UsedList(pc.i, pc.b)), k) == pc.h
    && m' == m.(heap := Detach(s, UsedList(pc.i, pc.b), k, pc.h),
                pcs := m.pcs[t := if c.useDelay then Removed(pc.i, pc.b, pc.h) else Retiring(pc.i, pc.b, pc.h)])
  }

  // Without delayed frees, `insertElmHead` to the free list, and unlock
  ghost predicate PushesFree(c: Setting, m: Machine, t: Tid, m': Machine)
    requires t in m.pcs
  {
    var s := m.heap;
    var pc := m.pcs[t];
    && pc.Retiring?
    && m' == m.(heap := Attach(s, FreeList(pc.i, pc.b), pc.h, Avail),
                pcs := m.pcs[t := Idle],
                locks := m.locks - {pc.i},
                hand := m.hand - {pc.h})
  }

  // `delayPut` looks at how full the ring is
  ghost predicate TestsRing(c: Setting, m: Machine, t: Tid, m': Machine)
    requires t in m.pcs
  {
    var s := m.heap;
    var pc := m.pcs[t];
    && pc.Removed?
    && m' == m.(pcs := m.pcs[t := if |Ring(s, pc.i)| > c.cap / 2 then Draining(pc.i, pc.b, pc.h) else Queueing(pc.i, pc.b, pc.h)])
  }

  // `delayFreeBatch` takes the oldest block out of the ring
  ghost predicate DrainsOne(c: Setting, m: Machine, t: Tid, m': Machine)
    requires t in m.pcs
  {
    var s := m.heap;
    var pc := m.pcs[t];
    && pc.Draining? && |Ring(s, pc.i)| > c.cap / 4
    && var g := First(Ring(s, pc.i));
       var d := HdrAt(s.mem, g).binNum;
       m' == m.(heap := Unquarantine(s, DelayRing(pc.i), g, d),
                pcs := m.pcs[t := Released(pc.i, pc.b, pc.h, g, d)],
                hand := m.hand[g := Thread(t)])
  }

  // `delayFreeBatch` puts it on its free list
  ghost predicate PushesDrained(c: Setting, m: Machine, t: Tid, m': Machine)
    requires t in m.pcs
  {
    var s := m.heap;
    var pc := m.pcs[t];
    && pc.Released?
    && m' == m.(heap := Attach(s, FreeList(pc.i, pc.d), pc.g, Avail),
                pcs := m.pcs[t := Draining(pc.i, pc.b, pc.h)],
                hand := m.hand - {pc.g})
  }

  // `delayFreeBatch` stops when a quarter of the ring is in use
  ghost predicate DrainsNoMore(c: Setting, m: Machine, t: Tid, m': Machine)
    requires t in m.pcs
  {
    var s := m.heap;
    var pc := m.pcs[t];
    && pc.Draining? && |Ring(s, pc.i)| <= c.cap / 4
    && m' == m.(pcs := m.pcs[t := Queueing(pc.i, pc.b, pc.h)])
  }

  // `circPut`, protection, and unlock
  ghost predicate QueuesUp(c: Setting, m: Machine, t: Tid, m': Machine)
    requires t in m.pcs
  {
    var s := m.heap;
    var pc := m.pcs[t];
    && pc.Queueing?
    && m' == m.(puts := m.puts[pc.i := PutsOf(m, pc.i) + [pc.h]],
                heap := Quarantine(s, DelayRing(pc.i), pc.h, pc.b),
                pcs := m.pcs[t := Idle],
                locks := m.locks - {pc.i},
                hand := m.hand - {pc.h})
  }

  // The program writes inside an allocation of its own
  ghost predicate Writes(c: Setting, m: Machine, t: Tid, h: Ptr, mem: Mem, m': Machine)
    requires t in m.pcs
  {
    var s := m.heap;
    var pc := m.pcs[t];
    && pc.Idle? && h in m.hand && m.hand[h] == Program && InBounds(s, h, mem)
    && m' == m.(heap := s.(mem := mem))
  }

  /** Thread t of machine m takes step a, giving m'. */
  ghost predicate Does(c: Setting, m: Machine, t: Tid, a: Action, m': Machine) {
    t in m.pcs && match a
      case Ask(i, req) => Asks(c, m, t, i, req, m')
      case Carve(start) => Carves(c, m, t, start, m')
      case PushNew => PushesNew(c, m, t, m')
      case GiveUp => GivesUp(c, m, t, m')
      case Pop => Pops(c, m, t, m')
      case PushUsed => PushesUsed(c, m, t, m')
      case Unlock => Unlocks(c, m, t, m')
      case Vet => Vets(c, m, t, m')
      case Fill(mem, usr) => Fills(c, m, t, mem, usr, m')
      case CallFree(h) => CallsFree(c, m, t, h, m')
      case CheckFree => ChecksFree(c, m, t, m')
      case CheckPut => ChecksPut(c, m, t, m')
      case Stamp => Stamps(c, m, t, m')
      case LockPut => LocksPut(c, m, t, m')
      case PopUsed(k) => PopsUsed(c, m, t, k, m')
      case PushFree => PushesFree(c, m, t, m')
      case TestRing => TestsRing(c, m, t, m')
      case DrainGet => DrainsOne(c, m, t, m')
      case PushDrained => PushesDrained(c, m, t, m')
      case DrainDone => DrainsNoMore(c, m, t, m')
      case Queue => QueuesUp(c, m, t, m')
      case Write(h, mem) => Writes(c, m, t, h, mem, m')
  }

  // ---------------------------------------------------------------- the invariant

  /** The slot whose lock a thread at pc holds, or -1. */
  function InSlot(pc: Pc): int {
    match pc
    case Idle => -1
    case Vetting(_, _) => -1
    case Filling(_, _) => -1
    case Called(_) => -1
    case Entered(_) => -1
    case Checked(_) => -1
    case Stamped(_) => -1
    case _ => pc.i
  }

  /** The blocks in a thread's hands. */
  function Hands(pc: Pc): set<Ptr> {
    match pc
    case Idle => {}
    case Replenish(_, _, _, _) => {}
    case Released(_, _, h, g, _) => {h, g}
    case _ => {pc.h}
  }

  ghost predicate InHand(s: State, h: Ptr, i: nat, b: nat, own: Owner) {
    && h in s.blk && s.blk[h].own == own && s.blk[h].slot == i && s.blk[h].bin == b
    && (own.Loose? ==> Reachable(s.noAccess, h, Pow2(b)))
  }

  ghost predicate Fits(s: State, b: nat, req: Request) {
    && MIN_BIN <= b < MAX_ALLOC_POWER && AllocOf(s, req) <= Pow2(b)
    && L.Servable(AllocOf(s, req)) && b == L.BinFor(AllocOf(s, req))
  }

  ghost predicate Given(s: State, h: Ptr, req: Request) {
    h in s.blk && s.blk[h].own.Taken? && s.blk[h].size == req.size && Fits(s, s.blk[h].bin, req)
  }

  ghost predicate Owns(s: State, h: Ptr, own: Owner) {
    h in s.blk && s.blk[h].own == own
  }

  ghost predicate ThreadOk(c: Setting, s: State, pc: Pc) {
    match pc
    case Idle => true
    case Replenish(i, b, req, _) => i < c.numSlots && Fits(s, b, req)
    case Fresh(i, b, h, req) => i < c.numSlots && Fits(s, b, req) && InHand(s, h, i, b, Loose)
    case Popped(i, b, h, req) => i < c.numSlots && Fits(s, b, req) && InHand(s, h, i, b, Loose)
    case Listed(i, b, h, req) => i < c.numSlots && InHand(s, h, i, b, Taken) && Given(s, h, req)
    case Vetting(h, req) => Given(s, h, req)
    case Filling(h, req) => Given(s, h, req)
    case Called(h) => Owns(s, h, Used)
    case Entered(h) => Owns(s, h, Used)
    case Checked(h) => Owns(s, h, Used)
    case Stamped(h) => Owns(s, h, Leaving)
    case Locked(i, b, h) => i < c.numSlots && InHand(s, h, i, b, Leaving)
    case Removed(i, b, h) => i < c.numSlots && InHand(s, h, i, b, Loose)
    case Draining(i, b, h) => i < c.numSlots && InHand(s, h, i, b, Loose)
    case Released(i, b, h, g, d) => i < c.numSlots && InHand(s, h, i, b, Loose) && InHand(s, g, i, d, Loose) && g != h
    case Queueing(i, b, h) => i < c.numSlots && InHand(s, h, i, b, Loose) && |Ring(s, i)| <= c.cap / 2
    case Retiring(i, b, h) => i < c.numSlots && InHand(s, h, i, b, Loose)
  }

  /** Locks and critical sections match. */
  ghost predicate LocksOk(m: Machine) {
    && (forall t | t in m.pcs && InSlot(m.pcs[t]) >= 0 :: InSlot(m.pcs[t]) in m.locks && m.locks[InSlot(m.pcs[t])] == t)
    && forall i | i in m.locks :: m.locks[i] in m.pcs && InSlot(m.pcs[m.locks[i]]) == i
  }

  /** Every block is on a free list, in a ring, with the program, or in the hands of exactly one thread. */
  ghost predicate HandsOk(m: Machine) {
    && (forall t | t in m.pcs :: forall h | h in Hands(m.pcs[t]) :: h in m.hand && m.hand[h] == Thread(t))
    && (forall h | h in m.hand :: HeldAt(m, h))
    && forall h | h in m.heap.blk && h !in m.hand :: m.heap.blk[h].own.Avail? || m.heap.blk[h].own.Delayed?
  }

  ghost predicate HeldAt(m: Machine, h: Ptr)
    requires h in m.hand
  {
    h in m.heap.blk && match m.hand[h]
      case Program => m.heap.blk[h].own.Used?
      case Thread(t) => t in m.pcs && h in Hands(m.pcs[t])
  }

  ghost predicate RingsOk(c: Setting, s: State) {
    forall i: nat | i < c.numSlots :: |Ring(s, i)| <= c.cap / 2 + 1
  }

  ghost predicate Consistent(c: Setting, m: Machine) {
    && c.cap >= 4 && c.cap % 4 == 0
    && HeapGood(m.heap) && SlopOk(m.heap) && ListsOk(m.heap.lists.Keys, c.numSlots)
    && (forall t | t in m.pcs :: ThreadOk(c, m.heap, m.pcs[t]))
    && LocksOk(m) && HandsOk(m) && RingsOk(c, m.heap)
  }

  // ---------------------------------------------------------------- one step of one thread

  lemma ThreadKept(c: Setting, s: State, t: State, pc: Pc)
    requires ThreadOk(c, s, pc) && t.hdrSize == s.hdrSize
    requires forall g | g in Hands(pc) :: SameBlock(s, t, g)
    requires InSlot(pc) >= 0 ==> Ring(t, InSlot(pc)) == Ring(s, InSlot(pc))
    ensures ThreadOk(c, t, pc)
  {
    hide Reachable, Fits, L.AllocSize;
    FitsKept(s, t);
    match pc
    case Idle =>
    case Replenish(_, _, _, _) =>
    case Released(_, _, h, g, _) =>
      assert SameBlock(s, t, h) && SameBlock(s, t, g);
    case _ =>
      assert pc.h in Hands(pc) && SameBlock(s, t, pc.h);
  }

  lemma FitsKept(s: State, t: State)
    requires t.hdrSize == s.hdrSize
    ensures forall b: nat, req | Fits(s, b, req) :: Fits(t, b, req)
  {
  }

  ghost predicate SameElsewhere(a: map<Ptr, Holder>, b: map<Ptr, Holder>, x: Ptr) {
    forall g | g != x :: (g in a <==> g in b) && (g in a ==> b[g] == a[g])
  }

  /** What the step of thread t does to the block x it is about, and to t's hands. */
  ghost predicate Grips(m: Machine, t: Tid, x: Ptr, m': Machine)
    requires t in m.pcs && t in m'.pcs
  {
    && (x in m.hand && m.hand[x].Thread? ==> m.hand[x].t == t)
    && SameElsewhere(m.hand, m'.hand, x)
    && (x in m'.heap.blk && x !in m'.hand ==> m'.heap.blk[x].own.Avail? || m'.heap.blk[x].own.Delayed?)
    && (x in m'.hand ==> HeldAt(m', x) && (m'.hand[x].Thread? ==> m'.hand[x].t == t))
    && (x in Hands(m'.pcs[t]) ==> x in m'.hand && m'.hand[x] == Thread(t))
    && Hands(m'.pcs[t]) - {x} == Hands(m.pcs[t]) - {x}
  }

  ghost predicate Locks(m: Machine, t: Tid, m': Machine)
    requires t in m.pcs && t in m'.pcs
  {
    var i, j := InSlot(m.pcs[t]), InSlot(m'.pcs[t]);
    if i == j then m'.locks == m.locks
    else if i < 0 then j !in m.locks && m'.locks == m.locks[j := t]
    else j < 0 && m'.locks == m.locks - {i}
  }

  /** Only the ring of the slot the thread has locked may change, and it stays within its bound. */
  ghost predicate Queues(c: Setting, m: Machine, t: Tid, m': Machine)
    requires t in m.pcs
  {
    forall j: nat :: Ring(m'.heap, j) == Ring(m.heap, j) || (j == InSlot(m.pcs[t]) && |Ring(m'.heap, j)| <= c.cap / 2 + 1)
  }

  lemma Advance(c: Setting, m: Machine, t: Tid, x: Ptr, m': Machine)
    requires Consistent(c, m) && t in m.pcs && t in m'.pcs && m'.pcs == m.pcs[t := m'.pcs[t]]
    requires About(m.heap, m'.heap, x) && (x in m'.heap.blk && m'.heap.blk[x].own.Used? ==> SlopAt(m'.heap.mem, x, m'.heap.blk[x]))
    requires Grips(m, t, x, m') && Locks(m, t, m') && Queues(c, m, t, m') && ThreadOk(c, m'.heap, m'.pcs[t])
    ensures Consistent(c, m')
  {
    hide Inv, Evolves, SlopOk, SlopAt, Reachable, ThreadOk, Ring;
    SlopKept(m.heap, m'.heap, x);
    SameHdrSize(m.heap, m'.heap, x);
    forall u | u in m'.pcs && u != t ensures ThreadOk(c, m'.heap, m'.pcs[u]) {
      forall g | g in Hands(m.pcs[u]) ensures g in m.heap.blk && g != x {
        assert g in m.hand && HeldAt(m, g);
      }
      assert ThreadOk(c, m.heap, m.pcs[u]);
      ThreadKept(c, m.heap, m'.heap, m.pcs[u]);
    }
    LocksKept(m, t, m');
    HandsKept(m, t, x, m');
  }

  lemma SameHdrSize(s: State, t: State, x: Ptr)
    requires Evolves(s, t, x)
    ensures t.hdrSize == s.hdrSize
  {
  }

  lemma LocksKept(m: Machine, t: Tid, m': Machine)
    requires LocksOk(m) && t in m.pcs && t in m'.pcs && m'.pcs == m.pcs[t := m'.pcs[t]] && Locks(m, t, m')
    ensures LocksOk(m')
  {
  }

  lemma HandsKept(m: Machine, t: Tid, x: Ptr, m': Machine)
    requires HandsOk(m) && t in m.pcs && t in m'.pcs && m'.pcs == m.pcs[t := m'.pcs[t]]
    requires Grips(m, t, x, m')
    requires forall g | g in m.heap.blk && g != x :: g in m'.heap.blk && m'.heap.blk[g] == m.heap.blk[g]
    requires forall g | g in m'.heap.blk && g != x :: g in m.heap.blk
    ensures HandsOk(m')
  {
    forall h | h in m'.hand && h != x ensures HeldAt(m', h) {
      assert h in m.hand && HeldAt(m, h);
      if m.hand[h] == Thread(t) {
        assert h in Hands(m.pcs[t]) - {x};
      }
    }
    forall u | u in m'.pcs ensures forall h | h in Hands(m'.pcs[u]) :: h in m'.hand && m'.hand[h] == Thread(u) {
      forall h | h in Hands(m'.pcs[u]) ensures h in m'.hand && m'.hand[h] == Thread(u) {
        if u == t && h != x {
          assert h in Hands(m'.pcs[t]) - {x};
        }
      }
    }
  }

  /** What the invariant says to the thread that is about to move. */
  lemma Facts(c: Setting, m: Machine, t: Tid)
    requires Consistent(c, m) && t in m.pcs
    ensures HeapGood(m.heap) && SlopOk(m.heap) && ThreadOk(c, m.heap, m.pcs[t])
    ensures c.cap >= 4 && NULL !in m.heap.blk
    ensures m.hand.Keys <= m.heap.blk.Keys
    ensures forall h | h in Hands(m.pcs[t]) :: h in m.hand && m.hand[h] == Thread(t)
    ensures forall j: nat :: |Ring(m.heap, j)| <= c.cap / 2 + 1 || j >= c.numSlots
    ensures forall h | h in m.hand :: HeldAt(m, h)
  {
    hide Inv, SlopOk, ThreadOk, Ring;
    ZoneFacts(m.heap);
    assert forall h | h in m.hand :: HeldAt(m, h);
  }

  lemma ListThere(c: Setting, m: Machine, i: nat, b: nat)
    requires Consistent(c, m) && i < c.numSlots && b < MAX_ALLOC_POWER
    ensures FreeList(i, b) in m.heap.lists && UsedList(i, b) in m.heap.lists && DelayRing(i) in m.heap.lists
  {
    hide HeapGood, SlopOk, ThreadOk, LocksOk, HandsOk, RingsOk;
    assert IsListId(FreeList(i, b), c.numSlots) && IsListId(UsedList(i, b), c.numSlots) && IsListId(DelayRing(i), c.numSlots);
  }

  /** A free or delayed block is in nobody's hands. */
  lemma NotHeld(c: Setting, m: Machine, h: Ptr)
    requires Consistent(c, m) && h in m.heap.blk && (m.heap.blk[h].own.Avail? || m.heap.blk[h].own.Delayed?)
    ensures h !in m.hand
  {
    hide HeapGood, SlopOk, LocksOk, RingsOk, Ring, Reachable, Fits;
    assert h in m.hand ==> HeldAt(m, h);
    assert forall t | t in m.pcs && h in Hands(m.pcs[t]) :: ThreadOk(c, m.heap, m.pcs[t]);
  }

  /** A step that leaves the heap and everybody's hands alone. */
  lemma AdvanceStill(c: Setting, m: Machine, t: Tid, m': Machine)
    requires Consistent(c, m) && t in m.pcs && t in m'.pcs && m'.pcs == m.pcs[t := m'.pcs[t]]
    requires m'.heap == m.heap && m'.hand == m.hand && Hands(m'.pcs[t]) == Hands(m.pcs[t])
    requires Locks(m, t, m') && ThreadOk(c, m.heap, m'.pcs[t])
    ensures Consistent(c, m')
  {
    hide Consistent, HeapGood, SlopOk, ThreadOk, About, Ring;
    Facts(c, m, t);
    AboutNothing(m.heap, NULL);
    assert forall h | h in Hands(m.pcs[t]) :: h != NULL;
    Advance(c, m, t, NULL, m');
  }

  ghost predicate InUse(s: State, x: Ptr) {
    x in s.blk && s.blk[x].own.Used?
  }

  /** The step is about a block that is not in use before or after it, so no client can notice. */
  ghost predicate Silent(s: State, t: State, x: Ptr) {
    About(s, t, x) && !InUse(s, x) && !InUse(t, x)
  }

  ghost predicate Unseen(s: State, t: State) {
    exists x :: Silent(s, t, x)
  }

  lemma StepAsk(c: Setting, m: Machine, t: Tid, i: nat, req: Request, m': Machine)
    requires Consistent(c, m) && t in m.pcs && Asks(c, m, t, i, req, m')
    ensures Consistent(c, m')
  {
    hide Consistent, L.BinFor, L.Servable;
    L.BinIsTight(AllocOf(m.heap, req));
    AdvanceStill(c, m, t, m');
  }

  lemma StepCarve(c: Setting, m: Machine, t: Tid, start: Ptr, m': Machine)
    requires Consistent(c, m) && t in m.pcs && Carves(c, m, t, start, m')
    ensures Consistent(c, m') && Unseen(m.heap, m'.heap)
  {
    hide Consistent, Inv, About, SlopOk, SlopAt, Reachable, Grow, CarveFrom, GrowSize, AllocOf, L.BinFor, L.Servable;
    Facts(c, m, t);
    var pc := m.pcs[t];
    var s, u := m.heap, Roomy(m.heap, pc.b, start);
    RoomyGood(s, pc.b, start, u.lo);
    AboutCarve(u, pc.i, pc.b);
    AboutTrans(s, u, m'.heap, u.lo) by { assert HeapGood(s); }
    CarveLists(u, pc.i, pc.b);
    FitsKept(s, m'.heap);
    Advance(c, m, t, u.lo, m');
    assert Silent(m.heap, m'.heap, u.lo);
  }

  lemma CarveLists(s: State, slot: nat, bin: nat)
    ensures CarveFrom(s, slot, bin).lists == s.lists && CarveFrom(s, slot, bin).hdrSize == s.hdrSize
  {
  }

  /** Growth, when needed, leaves enough room. */
  lemma RoomyGood(s: State, b: nat, start: Ptr, x: Ptr)
    requires HeapGood(s) && MIN_BIN <= b
    requires Room(s) < Pow2(b) + PAGE_SIZE ==> Unmapped(s.mem, start, GrowSize(b))
    ensures var u := Roomy(s, b, start);
      && HeapGood(u) && About(s, u, x) && u.blk == s.blk && u.lists == s.lists && u.hdrSize == s.hdrSize
      && Pow2(b) + PAGE_SIZE <= Room(u)
  {
    hide Inv, About, Evolves, PoolSize;
    Pow2Pages(b);
    GrowthIsEnough(Pow2(b));
    AboutNothing(s, x);
    if Room(s) < Pow2(b) + PAGE_SIZE {
      AboutGrow(s, start, GrowSize(b), x);
      GrewGood(s, Grow(s, start, GrowSize(b)), x);
    }
  }

  lemma GrewGood(s: State, t: State, x: Ptr)
    requires About(s, t, x)
    ensures HeapGood(t)
  {
  }

  lemma StepPushNew(c: Setting, m: Machine, t: Tid, m': Machine)
    requires Consistent(c, m) && t in m.pcs && PushesNew(c, m, t, m')
    ensures Consistent(c, m') && Unseen(m.heap, m'.heap)
  {
    hide Consistent, Inv, About, SlopOk, SlopAt, Reachable, LinkFront, AllocOf, L.BinFor, L.Servable;
    Facts(c, m, t);
    var pc := m.pcs[t];
    ListThere(c, m, pc.i, pc.b);
    AboutAttach(m.heap, FreeList(pc.i, pc.b), pc.h, Avail);
    FitsKept(m.heap, m'.heap);
    Advance(c, m, t, pc.h, m');
    assert Silent(m.heap, m'.heap, pc.h);
  }

  lemma StepGiveUp(c: Setting, m: Machine, t: Tid, m': Machine)
    requires Consistent(c, m) && t in m.pcs && GivesUp(c, m, t, m')
    ensures Consistent(c, m')
  {
    hide Consistent;
    AdvanceStill(c, m, t, m');
  }

  lemma StepPop(c: Setting, m: Machine, t: Tid, m': Machine)
    requires Consistent(c, m) && t in m.pcs && Pops(c, m, t, m')
    ensures Consistent(c, m') && Unseen(m.heap, m'.heap)
  {
    hide Consistent, Inv, About, SlopOk, SlopAt, Reachable, Unlink, AllocOf, L.BinFor, L.Servable;
    Facts(c, m, t);
    var pc := m.pcs[t];
    var l := FreeList(pc.i, pc.b);
    ListThere(c, m, pc.i, pc.b);
    ListFacts(m.heap, l);
    var h := First(m.heap.lists[l]);
    assert h in m.heap.lists[l];
    NotHeld(c, m, h);
    AboutDetach(m.heap, l, 0, h);
    FitsKept(m.heap, m'.heap);
    Advance(c, m, t, h, m');
    assert Silent(m.heap, m'.heap, h);
  }

  lemma StepPushUsed(c: Setting, m: Machine, t: Tid, m': Machine)
    requires Consistent(c, m) && t in m.pcs && PushesUsed(c, m, t, m')
    ensures Consistent(c, m') && Unseen(m.heap, m'.heap)
  {
    hide Consistent, Inv, About, SlopOk, SlopAt, Reachable, LinkFront, AllocOf, L.BinFor, L.Servable;
    Facts(c, m, t);
    var pc := m.pcs[t];
    ListThere(c, m, pc.i, pc.b);
    var u := Attach(m.heap, UsedList(pc.i, pc.b), pc.h, Taken);
    AboutAttach(m.heap, UsedList(pc.i, pc.b), pc.h, Taken);
    GrewGood(m.heap, u, pc.h);
    AboutResize(u, pc.h, pc.req.size);
    AboutTrans(m.heap, u, m'.heap, pc.h);
    FitsKept(m.heap, m'.heap);
    Advance(c, m, t, pc.h, m');
    assert Silent(m.heap, m'.heap, pc.h);
  }

  lemma StepUnlock(c: Setting, m: Machine, t: Tid, m': Machine)
    requires Consistent(c, m) && t in m.pcs && Unlocks(c, m, t, m')
    ensures Consistent(c, m')
  {
    hide Consistent, SlopOk, HeapGood, Reachable, L.BinFor, L.Servable;
    Facts(c, m, t);
    AdvanceStill(c, m, t, m');
  }

  lemma StepVet(c: Setting, m: Machine, t: Tid, m': Machine)
    requires Consistent(c, m) && t in m.pcs && Vets(c, m, t, m')
    ensures Consistent(c, m')
  {
    hide Consistent, SlopOk, HeapGood, Reachable, L.BinFor, L.Servable;
    Facts(c, m, t);
    AdvanceStill(c, m, t, m');
  }

  lemma StepFill(c: Setting, m: Machine, t: Tid, mem: Mem, usr: Ptr, m': Machine)
    requires Consistent(c, m) && t in m.pcs && Fills(c, m, t, mem, usr, m')
    ensures Consistent(c, m') && About(m.heap, m'.heap, m.pcs[t].h)
  {
    hide Consistent, Inv, About, SlopOk, Reachable, Rewritten, Evolves, L.BinFor, L.Servable;
    Facts(c, m, t);
    var pc := m.pcs[t];
    var b := m.heap.blk[pc.h];
    L.LayoutFits(pc.h, m.heap.hdrSize, pc.req.alignment, pc.req.size, b.bin);
    CommitInv(m.heap, mem, pc.h, usr, L.Misalignment(pc.h + Pow2(b.bin), pc.req.alignment, pc.req.size));
    AboutRewrite(m.heap, m'.heap, pc.h);
    assert SlopAt(m'.heap.mem, pc.h, m'.heap.blk[pc.h]);
    Advance(c, m, t, pc.h, m');
  }

  lemma StepCallFree(c: Setting, m: Machine, t: Tid, h: Ptr, m': Machine)
    requires Consistent(c, m) && t in m.pcs && CallsFree(c, m, t, h, m')
    ensures Consistent(c, m')
  {
    hide Consistent, Inv, About, SlopOk, SlopAt, Reachable;
    Facts(c, m, t);
    assert HeldAt(m, h);
    AboutNothing(m.heap, h);
    SlopAtOf(m.heap, h);
    Advance(c, m, t, h, m');
  }

  lemma StepCheckFree(c: Setting, m: Machine, t: Tid, m': Machine)
    requires Consistent(c, m) && t in m.pcs && ChecksFree(c, m, t, m')
    ensures Consistent(c, m')
  {
    hide Consistent, SlopOk, HeapGood;
    Facts(c, m, t);
    AdvanceStill(c, m, t, m');
  }

  lemma StepCheckPut(c: Setting, m: Machine, t: Tid, m': Machine)
    requires Consistent(c, m) && t in m.pcs && ChecksPut(c, m, t, m')
    ensures Consistent(c, m')
  {
    hide Consistent, SlopOk, HeapGood;
    Facts(c, m, t);
    AdvanceStill(c, m, t, m');
  }

  lemma StepStamp(c: Setting, m: Machine, t: Tid, m': Machine)
    requires Consistent(c, m) && t in m.pcs && Stamps(c, m, t, m')
    ensures Consistent(c, m') && About(m.heap, m'.heap, m.pcs[t].h)
  {
    hide Consistent, Inv, About, SlopOk, SlopAt, Reachable, Evolves, IsHdr;
    Facts(c, m, t);
    var h := m.pcs[t].h;
    BlockReady(m.heap, h);
    ReadyHas(m.heap.mem, m.heap.noAccess, h);
    StampInv(m.heap, h);
    AboutRewrite(m.heap, m'.heap, h);
    Advance(c, m, t, h, m');
  }

  lemma ReadyHas(m: Mem, noAccess: set<Ptr>, h: Ptr)
    requires Ready(m, noAccess, h)
    ensures HasHdr(m, h)
  {
  }

  lemma StepLockPut(c: Setting, m: Machine, t: Tid, m': Machine)
    requires Consistent(c, m) && t in m.pcs && LocksPut(c, m, t, m')
    ensures Consistent(c, m')
  {
    hide Consistent, Inv, SlopOk, Reachable, SoundAt;
    Facts(c, m, t);
    var h := m.pcs[t].h;
    BlockReady(m.heap, h);
    SlotThere(c, m, h);
    AdvanceStill(c, m, t, m');
  }

  /** The slot of a listed block exists. */
  lemma SlotThere(c: Setting, m: Machine, h: Ptr)
    requires Consistent(c, m) && h in m.heap.blk && !m.heap.blk[h].own.Loose?
    ensures m.heap.blk[h].slot < c.numSlots
  {
    hide Inv, SlopOk, ThreadOk, LocksOk, HandsOk, RingsOk, SoundAt;
    BlockFacts(m.heap, h);
    assert IsListId(Home(m.heap.blk[h]), c.numSlots);
  }

  lemma StepPopUsed(c: Setting, m: Machine, t: Tid, k: nat, m': Machine)
    requires Consistent(c, m) && t in m.pcs && PopsUsed(c, m, t, k, m')
    ensures Consistent(c, m') && Unseen(m.heap, m'.heap)
  {
    hide Consistent, Inv, About, SlopOk, SlopAt, Reachable, Unlink;
    Facts(c, m, t);
    var pc := m.pcs[t];
    var l := UsedList(pc.i, pc.b);
    assert pc.h != NULL;
    AboutDetach(m.heap, l, k, pc.h);
    Advance(c, m, t, pc.h, m');
    assert Silent(m.heap, m'.heap, pc.h);
  }

  lemma StepPushFree(c: Setting, m: Machine, t: Tid, m': Machine)
    requires Consistent(c, m) && t in m.pcs && PushesFree(c, m, t, m')
    ensures Consistent(c, m') && Unseen(m.heap, m'.heap)
  {
    hide Consistent, Inv, About, SlopOk, SlopAt, Reachable, LinkFront;
    Facts(c, m, t);
    var pc := m.pcs[t];
    BinRange(m.heap, pc.h);
    ListThere(c, m, pc.i, pc.b);
    AboutAttach(m.heap, FreeList(pc.i, pc.b), pc.h, Avail);
    Advance(c, m, t, pc.h, m');
    assert Silent(m.heap, m'.heap, pc.h);
  }

  lemma BinRange(s: State, h: Ptr)
    requires Inv(s) && h in s.blk
    ensures MIN_BIN <= s.blk[h].bin < MAX_ALLOC_POWER
  {
    BlockFacts(s, h);
  }

  lemma StepTestRing(c: Setting, m: Machine, t: Tid, m': Machine)
    requires Consistent(c, m) && t in m.pcs && TestsRing(c, m, t, m')
    ensures Consistent(c, m')
  {
    hide Consistent, SlopOk, HeapGood, Reachable;
    Facts(c, m, t);
    AdvanceStill(c, m, t, m');
  }

  lemma StepDrainGet(c: Setting, m: Machine, t: Tid, m': Machine)
    requires Consistent(c, m) && t in m.pcs && DrainsOne(c, m, t, m')
    ensures Consistent(c, m') && Unseen(m.heap, m'.heap)
  {
    hide Consistent, Inv, About, SlopOk, SlopAt, Reachable, SoundAt;
    Facts(c, m, t);
    var pc := m.pcs[t];
    var s := m.heap;
    BinRange(s, pc.h);
    ListThere(c, m, pc.i, pc.b);
    var l := DelayRing(pc.i);
    var g := First(s.lists[l]);
    AboutUnquarantine(s, l, g);
    DelayedBin(s, g);
    NotHeld(c, m, g);
    HandKept(s, m'.heap, g, pc.h);
    Advance(c, m, t, g, m');
    assert Silent(m.heap, m'.heap, g);
  }

  lemma DelayedBin(s: State, g: Ptr)
    requires Inv(s) && g in s.blk
    ensures HdrAt(s.mem, g).binNum == s.blk[g].bin
  {
    BlockFacts(s, g);
  }

  lemma HandKept(s: State, t: State, x: Ptr, h: Ptr)
    requires About(s, t, x) && h in s.blk && h != x
    ensures SameBlock(s, t, h)
  {
  }

  lemma StepPushDrained(c: Setting, m: Machine, t: Tid, m': Machine)
    requires Consistent(c, m) && t in m.pcs && PushesDrained(c, m, t, m')
    ensures Consistent(c, m') && Unseen(m.heap, m'.heap)
  {
    hide Consistent, Inv, About, SlopOk, SlopAt, Reachable, LinkFront, L.BinFor, L.Servable, AllocOf;
    Facts(c, m, t);
    var pc := m.pcs[t];
    BinRange(m.heap, pc.g);
    ListThere(c, m, pc.i, pc.d);
    AboutAttach(m.heap, FreeList(pc.i, pc.d), pc.g, Avail);
    HandKept(m.heap, m'.heap, pc.g, pc.h);
    Advance(c, m, t, pc.g, m');
    assert Silent(m.heap, m'.heap, pc.g);
  }

  lemma StepDrainDone(c: Setting, m: Machine, t: Tid, m': Machine)
    requires Consistent(c, m) && t in m.pcs && DrainsNoMore(c, m, t, m')
    ensures Consistent(c, m')
  {
    hide Consistent, SlopOk, HeapGood, Reachable;
    Facts(c, m, t);
    AdvanceStill(c, m, t, m');
  }

  lemma StepQueue(c: Setting, m: Machine, t: Tid, m': Machine)
    requires Consistent(c, m) && t in m.pcs && QueuesUp(c, m, t, m')
    ensures Consistent(c, m') && Unseen(m.heap, m'.heap)
  {
    hide Consistent, Inv, About, SlopOk, SlopAt, Reachable;
    Facts(c, m, t);
    var pc := m.pcs[t];
    BinRange(m.heap, pc.h);
    ListThere(c, m, pc.i, pc.b);
    AboutQuarantine(m.heap, DelayRing(pc.i), pc.h);
    Advance(c, m, t, pc.h, m');
    assert Silent(m.heap, m'.heap, pc.h);
  }

  lemma WriteFacts(s: State, h: Ptr, mem: Mem)
    requires Inv(s) && SlopOk(s) && h in s.blk && s.blk[h].own.Used? && InBounds(s, h, mem)
    ensures var t := s.(mem := mem); Inv(t) && Evolves(s, t, h) && SlopOk(t)
  {
    hide Inv, Evolves, SlopOk, Client, Good, AgreeOutside;
    StoreInv(s, mem, h);
  }

  lemma StepWrite(c: Setting, m: Machine, t: Tid, h: Ptr, mem: Mem, m': Machine)
    requires Consistent(c, m) && t in m.pcs && Writes(c, m, t, h, mem, m')
    ensures Consistent(c, m')
  {
    hide Consistent, Inv, About, SlopOk, SlopAt, Reachable, Evolves, InBounds;
    Facts(c, m, t);
    assert HeldAt(m, h);
    WriteFacts(m.heap, h, mem);
    assert m.heap.blk[h := m.heap.blk[h]] == m.heap.blk && m.pcs[t := Idle] == m.pcs;
    AboutRewrite(m.heap, m'.heap, h);
    SlopAtOf(m'.heap, h);
    Advance(c, m, t, h, m');
  }

  /** Every step of every thread keeps the invariant. */
  lemma StepKeeps(c: Setting, m: Machine, t: Tid, a: Action, m': Machine)
    requires Consistent(c, m) && Does(c, m, t, a, m')
    ensures Consistent(c, m')
  {
    hide Consistent, Unseen, About, Asks, Carves, PushesNew, GivesUp, Pops, PushesUsed, Unlocks, Vets, Fills;
    hide CallsFree, ChecksFree, ChecksPut;
    hide Stamps, LocksPut, PopsUsed, PushesFree, TestsRing, DrainsOne, PushesDrained, DrainsNoMore, QueuesUp, Writes;
    match a
    case Ask(i, req) => StepAsk(c, m, t, i, req, m');
    case Carve(start) => StepCarve(c, m, t, start, m');
    case PushNew => StepPushNew(c, m, t, m');
    case GiveUp => StepGiveUp(c, m, t, m');
    case Pop => StepPop(c, m, t, m');
    case PushUsed => StepPushUsed(c, m, t, m');
    case Unlock => StepUnlock(c, m, t, m');
    case Vet => StepVet(c, m, t, m');
    case Fill(mem, usr) => StepFill(c, m, t, mem, usr, m');
    case CallFree(h) => StepCallFree(c, m, t, h, m');
    case CheckFree => StepCheckFree(c, m, t, m');
    case CheckPut => StepCheckPut(c, m, t, m');
    case Stamp => StepStamp(c, m, t, m');
    case LockPut => StepLockPut(c, m, t, m');
    case PopUsed(k) => StepPopUsed(c, m, t, k, m');
    case PushFree => StepPushFree(c, m, t, m');
    case TestRing => StepTestRing(c, m, t, m');
    case DrainGet => StepDrainGet(c, m, t, m');
    case PushDrained => StepPushDrained(c, m, t, m');
    case DrainDone => StepDrainDone(c, m, t, m');
    case Queue => StepQueue(c, m, t, m');
    case Write(h, mem) => StepWrite(c, m, t, h, mem, m');
  }

  // ---------------------------------------------------------------- what the invariant rules out

  /** A region the kernel may map if the current pool is too small for a block of bin b. */
  ghost predicate Offered(s: State, b: nat, start: Ptr) {
    Room(s) < Pow2(b) + PAGE_SIZE ==> Unmapped(s.mem, start, GrowSize(b))
  }

  /** The assertions of `getFromPool`: there is room now, and block and guard page are on page boundaries. */
  predicate CarveAborts(u: State, b: nat) {
    Room(u) < Pow2(b) + PAGE_SIZE || u.lo % PAGE_SIZE != 0 || (u.lo + Pow2(b)) % PAGE_SIZE != 0
  }

  ghost predicate CarveUsable(u: State, b: nat) {
    Mapped(u.mem, u.lo, Pow2(b) + PAGE_SIZE) && Reachable(u.noAccess, u.lo, Pow2(b) + PAGE_SIZE)
  }

  /** `circGet` makes one page accessible before it reads the header, which tells how much more to open. */
  ghost predicate Openable(s: State, g: Ptr) {
    && g % PAGE_SIZE == 0 && Mapped(s.mem, g, PAGE_SIZE) && Ready(s.mem, s.noAccess - Range(g, PAGE_SIZE), g)
    && Mapped(s.mem, g, Pow2(HdrAt(s.mem, g).binNum)) && Pow2(HdrAt(s.mem, g).binNum) % PAGE_SIZE == 0
  }

  /** Thread t stands at an assertion that fails.  There is no table of pools here, so that of `addNewMemPool` on
      their number is not among them. */
  ghost predicate Aborts(c: Setting, m: Machine, t: Tid)
    requires t in m.pcs
  {
    var s := m.heap;
    match m.pcs[t]
    case Replenish(i, b, req, _) => exists start: Ptr :: Offered(s, b, start) && CarveAborts(Roomy(s, b, start), b)
    case Listed(i, b, h, req) => !(L.Servable(req.size) && SizeBin(req.size) < MAX_ALLOC_POWER)
    case Vetting(h, req) => HdrAt(s.mem, h).magic != MAGIC_FREE
    case Filling(h, req) => HdrAt(s.mem, h).magic != MAGIC_FREE
    case Called(h) => HdrAt(s.mem, h).magic != MAGIC_INUSE || SlopDamaged(s.mem, HdrAt(s.mem, h))
    case Entered(h) => HdrAt(s.mem, h).magic != MAGIC_INUSE
    case Locked(i, b, h) =>
      var size := HdrAt(s.mem, h).usrDataSize;
      !(L.Servable(size) && SizeBin(size) < MAX_ALLOC_POWER)
    case Queueing(i, b, h) => |Ring(s, i)| >= c.cap - 1
    case _ => false
  }

  /** The comparison `free` makes. */
  ghost predicate SlopDamaged(m: Mem, e: ElmHdr) {
    e.misalignment > 0 && !IsFilled(m, e.usrData + e.usrDataSize, Min(e.misalignment, MAX_SLOP), MAGIC_SLOP)
  }

  ghost predicate UsableList(s: State, l: ListId) {
    l in s.lists && forall i | 0 <= i < |s.lists[l]| :: Ready(s.mem, s.noAccess, s.lists[l][i])
  }

  ghost predicate UsableBlock(s: State, h: Ptr) {
    h in s.blk && Mapped(s.mem, h, Pow2(s.blk[h].bin)) && Reachable(s.noAccess, h, Pow2(s.blk[h].bin))
  }

  /** Everything thread t is about to read or write is mapped and accessible. */
  ghost predicate Touchable(m: Machine, t: Tid)
    requires t in m.pcs
  {
    var s := m.heap;
    var pc := m.pcs[t];
    && (forall h | h in Hands(pc) :: Ready(s.mem, s.noAccess, h) && UsableBlock(s, h))
    && match pc
       case Replenish(i, b, _, _) =>
         && UsableList(s, FreeList(i, b))
         && forall start: Ptr | Offered(s, b, start) :: CarveUsable(Roomy(s, b, start), b)
       case Fresh(i, b, _, _) => UsableList(s, FreeList(i, b))
       case Popped(i, b, _, _) => UsableList(s, UsedList(i, b))
       case Called(h) => h in s.blk && s.blk[h].usr >= WORD_SIZE && IsWord(s.mem, s.blk[h].usr - WORD_SIZE, h)
       case Locked(i, b, h) => UsableList(s, UsedList(i, b)) && h in s.lists[UsedList(i, b)]
       case Draining(i, _, _) => Ring(s, i) != [] ==> Openable(s, First(Ring(s, i)))
       case Released(i, b, h, g, d) => UsableList(s, FreeList(i, d))
       case Retiring(i, b, _) => UsableList(s, FreeList(i, b))
       case _ => true
  }

  /** Threads lose no blocks: while nobody holds a slot's lock, all blocks ever carved for it are on its free lists,
      on its in-use lists, or in its ring. */
  lemma InterleavedCensus(c: Setting, m: Machine, i: nat, b: nat)
    requires Consistent(c, m) && i < c.numSlots && i !in m.locks && b < MAX_ALLOC_POWER
    ensures FreeList(i, b) in m.heap.lists && UsedList(i, b) in m.heap.lists
    ensures |T.BlocksOf(m.heap.blk, i, b)| ==
      |m.heap.lists[FreeList(i, b)]| + |m.heap.lists[UsedList(i, b)]| + |T.DelayedOf(m.heap.blk, i, b)|
  {
    hide Consistent, Inv, SlopOk, Reachable;
    ListThere(c, m, i, b);
    var s := m.heap;
    forall h | h in T.BlocksOf(s.blk, i, b) ensures !s.blk[h].own.Loose? {
      NotLoose(c, m, i, h);
    }
    ConsistentOwned(c, m);
    T.Census(s, i, b);
  }

  lemma ConsistentOwned(c: Setting, m: Machine)
    requires Consistent(c, m)
    ensures Owned(m.heap)
  {
    hide SlopOk, ThreadOk, LocksOk, HandsOk, RingsOk, Sound, Apart, Owned;
    InvGood(m.heap);
  }

  lemma NotLoose(c: Setting, m: Machine, i: nat, h: Ptr)
    requires Consistent(c, m) && i !in m.locks && h in m.heap.blk && m.heap.blk[h].slot == i
    ensures !m.heap.blk[h].own.Loose?
  {
    hide HeapGood, SlopOk, RingsOk, Reachable, Fits;
    if h in m.hand && m.hand[h].Thread? {
      assert HeldAt(m, h);
      assert ThreadOk(c, m.heap, m.pcs[m.hand[h].t]);
    }
  }

  /** None of these assertions fails, whatever the other threads are doing.  (The one on the number of pools does,
      when a 257th is needed: see GuardRails.GetFromPool.) */
  lemma NeverAborts(c: Setting, m: Machine, t: Tid)
    requires Consistent(c, m) && t in m.pcs
    ensures !Aborts(c, m, t)
  {
    hide Consistent, Inv, SlopOk, SlopAt, Reachable, IsFilled, L.Servable, SizeBin, CarveAborts, Offered, Roomy;
    Facts(c, m, t);
    var s := m.heap;
    var pc := m.pcs[t];
    match pc
    case Replenish(i, b, req, _) =>
      forall start: Ptr | Offered(s, b, start) ensures !CarveAborts(Roomy(s, b, start), b) {
        CarveRoom(s, b, start);
      }
    case Listed(i, b, h, req) => AllocCovers(s.hdrSize, req); SizeFits(req.size, b);
    case Vetting(h, req) => HeldHdr(s, h);
    case Filling(h, req) => HeldHdr(s, h);
    case Called(h) => HeldHdr(s, h); SlopAtOf(s, h); LiveFacts(s, h); SlopIntact(s.mem, h, s.blk[h], HdrAt(s.mem, h));
    case Entered(h) => HeldHdr(s, h);
    case Locked(i, b, h) => HeldHdr(s, h); LeavingSize(s, h);
    case _ =>
  }

  lemma CarveRoom(s: State, b: nat, start: Ptr)
    requires HeapGood(s) && MIN_BIN <= b && Offered(s, b, start)
    ensures !CarveAborts(Roomy(s, b, start), b) && CarveUsable(Roomy(s, b, start), b)
  {
    hide Inv, About, Roomy;
    var u := Roomy(s, b, start);
    RoomyGood(s, b, start, NULL);
    Pow2Pages(b);
    CutFacts(u, Pow2(b));
    ZoneFacts(u);
  }

  lemma OldestOpens(s: State, i: nat)
    requires Inv(s) && DelayRing(i) in s.lists && Ring(s, i) != []
    ensures Openable(s, First(Ring(s, i)))
  {
    hide Inv;
    var g := First(Ring(s, i));
    ListFacts(s, DelayRing(i));
    assert g in s.lists[DelayRing(i)];
    BlockFacts(s, g);
    Pow2Pages(s.blk[g].bin);
  }

  lemma AllocCovers(hdrSize: nat, req: Request)
    ensures req.size <= L.AllocSize(hdrSize, req.alignment, req.size)
  {
  }

  lemma HeldHdr(s: State, h: Ptr)
    requires Inv(s) && h in s.blk
    ensures HasHdr(s.mem, h) && HdrAt(s.mem, h) == s.mem[h].hdr
    ensures HdrAt(s.mem, h).magic == Magic(s.blk[h].own)
  {
    BlockFacts(s, h);
  }

  lemma SlopIntact(m: Mem, h: Ptr, b: Block, e: ElmHdr)
    requires SlopAt(m, h, b) && b.usr + b.size <= h + Pow2(b.bin)
    requires e.usrData == b.usr && e.usrDataSize == b.size && e.misalignment == h + Pow2(b.bin) - b.usr - b.size
    ensures !SlopDamaged(m, e)
  {
    hide IsFilled;
  }

  lemma LeavingSize(s: State, h: Ptr)
    requires Inv(s) && h in s.blk && s.blk[h].own.Leaving?
    ensures L.Servable(HdrAt(s.mem, h).usrDataSize) && SizeBin(HdrAt(s.mem, h).usrDataSize) < MAX_ALLOC_POWER
  {
    BlockFacts(s, h);
    SizeFits(s.blk[h].size, s.blk[h].bin);
  }

  /** Nothing a thread is about to touch is on a protected page, and every list it relinks is intact. */
  lemma NeverFaults(c: Setting, m: Machine, t: Tid)
    requires Consistent(c, m) && t in m.pcs
    ensures Touchable(m, t)
  {
    hide Consistent, Inv, SlopOk, Reachable, Ready, UsableBlock, UsableList, CarveUsable, Offered, Roomy, Openable;
    Facts(c, m, t);
    var s := m.heap;
    var pc := m.pcs[t];
    forall h | h in Hands(pc) ensures Ready(s.mem, s.noAccess, h) && UsableBlock(s, h) {
      HeldUsable(c, s, pc, h);
    }
    match pc
    case Replenish(i, b, _, _) =>
      ListThere(c, m, i, b);
      ListUsable(s, FreeList(i, b));
      forall start: Ptr | Offered(s, b, start) ensures CarveUsable(Roomy(s, b, start), b) {
        CarveRoom(s, b, start);
      }
    case Fresh(i, b, _, _) => ListThere(c, m, i, b); ListUsable(s, FreeList(i, b));
    case Popped(i, b, _, _) => ListThere(c, m, i, b); ListUsable(s, UsedList(i, b));
    case Called(h) => BackPointer(s, h);
    case Locked(i, b, h) => BinRange(s, h); ListThere(c, m, i, b); ListUsable(s, UsedList(i, b)); ListFacts(s, UsedList(i, b));
    case Draining(i, _, h) =>
      BinRange(s, h);
      ListThere(c, m, i, s.blk[h].bin);
      if Ring(s, i) != [] { OldestOpens(s, i); }
    case Released(i, b, h, g, d) => BinRange(s, g); ListThere(c, m, i, d); ListUsable(s, FreeList(i, d));
    case Retiring(i, b, h) => BinRange(s, h); ListThere(c, m, i, b); ListUsable(s, FreeList(i, b));
    case _ =>
  }

  lemma HeldUsable(c: Setting, s: State, pc: Pc, h: Ptr)
    requires Inv(s) && ThreadOk(c, s, pc) && h in Hands(pc)
    ensures Ready(s.mem, s.noAccess, h) && UsableBlock(s, h)
  {
    hide Inv, Reachable, Ready, SoundAt, Fits;
    assert h in s.blk && !s.blk[h].own.Delayed? && !s.blk[h].own.Avail?;
    assert s.blk[h].own.Loose? ==> Reachable(s.noAccess, h, Pow2(s.blk[h].bin));
    BlockReady(s, h);
    BlockUsable(s, h);
  }

  lemma BlockUsable(s: State, h: Ptr)
    requires Inv(s) && h in s.blk && !s.blk[h].own.Delayed?
    requires s.blk[h].own.Loose? ==> Reachable(s.noAccess, h, Pow2(s.blk[h].bin))
    ensures UsableBlock(s, h)
  {
    BlockFacts(s, h);
  }

  lemma ListUsable(s: State, l: ListId)
    requires Inv(s) && l in s.lists && !l.DelayRing?
    ensures UsableList(s, l)
  {
    hide Inv, Ready;
    ListReady(s, l);
  }

  lemma BackPointer(s: State, h: Ptr)
    requires Inv(s) && h in s.blk && s.blk[h].own.Used?
    ensures s.blk[h].usr >= WORD_SIZE && IsWord(s.mem, s.blk[h].usr - WORD_SIZE, h)
  {
    BlockFacts(s, h);
  }

  /** Thread t is between the list move of `getBuf` and the stamp of `memalignInt`, or between the stamp
      of `putBuf` and its list move, with block h. */
  predicate InWindow(pc: Pc, h: Ptr) {
    match pc
    case Listed(_, _, g, _) => g == h
    case Vetting(g, _) => g == h
    case Filling(g, _) => g == h
    case Stamped(g) => g == h
    case Locked(_, _, g) => g == h
    case _ => false
  }

  /** Block h carries the free magic exactly if some thread holds it in one of the two windows. */
  ghost predicate WindowAt(m: Machine, h: Ptr) {
    HdrAt(m.heap.mem, h).magic == MAGIC_FREE <==> exists t :: t in m.pcs && InWindow(m.pcs[t], h)
  }

  /** The headers on in-use lists that still, or already, carry the free magic are exactly those of the
      blocks some thread holds in one of the two windows. */
  lemma WindowsExact(c: Setting, m: Machine, l: ListId, h: Ptr)
    requires Consistent(c, m) && l.UsedList? && l in m.heap.lists && h in m.heap.lists[l]
    ensures WindowAt(m, h)
  {
    hide Inv, SlopOk, LocksOk, RingsOk, Reachable, Fits;
    ListFacts(m.heap, l);
    HeldHdr(m.heap, h);
    var own := m.heap.blk[h].own;
    assert own.Taken? || own.Used? || own.Leaving?;
    if own.Taken? || own.Leaving? {
      assert h in m.hand && HeldAt(m, h);
      assert ThreadOk(c, m.heap, m.pcs[m.hand[h].t]);
    }
    forall t | t in m.pcs && InWindow(m.pcs[t], h) ensures own.Taken? || own.Leaving? {
      assert ThreadOk(c, m.heap, m.pcs[t]);
    }
  }

  /** No block is in the hands of two threads, or of a thread and the program. */
  lemma NoSharing(c: Setting, m: Machine, t: Tid, u: Tid)
    requires Consistent(c, m) && t in m.pcs && u in m.pcs && t != u
    ensures Hands(m.pcs[t]) !! Hands(m.pcs[u])
    ensures forall h | h in Hands(m.pcs[t]) :: m.hand[h] != Program
    ensures InSlot(m.pcs[t]) >= 0 ==> InSlot(m.pcs[t]) != InSlot(m.pcs[u])
  {
    hide HeapGood, SlopOk, RingsOk, ThreadOk;
    assert HandsOk(m) && LocksOk(m);
  }

  // ---------------------------------------------------------------- the program's view

  function CellsAt(m: Mem, a: Ptr, n: nat): seq<Cell> {
    if Mapped(m, a, n) then Cells(m, a, n) else []
  }

  /** A malloc takes effect for the program when its block is filled, a free when its block is stamped. */
  function EffectOf(m: Machine, t: Tid, a: Action): Effect
    requires t in m.pcs
  {
    var s := m.heap;
    match a
    case Fill(mem, usr) => if m.pcs[t].Filling? then Gain(m.pcs[t].h, usr, CellsAt(mem, usr, m.pcs[t].req.size)) else Nothing
    case Stamp => if m.pcs[t].Checked? && m.pcs[t].h in s.blk then Lose(m.pcs[t].h, s.blk[m.pcs[t].h].usr, Leaving) else Nothing
    case Write(h, mem) => if h in s.blk then Store(h, s.blk[h].usr, CellsAt(mem, s.blk[h].usr, s.blk[h].size)) else Nothing
    case _ => Nothing
  }

  lemma ConsistentGood(c: Setting, m: Machine)
    requires Consistent(c, m)
    ensures Inv(m.heap) && Good(m.heap) && SlopOk(m.heap)
  {
    InvGood(m.heap);
  }

  lemma UnseenClient(s: State, t: State)
    requires Good(s) && Good(t) && Unseen(s, t)
    ensures Client(t) == Client(s)
  {
    hide Good, Evolves, Client;
    var x :| Silent(s, t, x);
    ClientSame(s, t, x);
  }

  lemma FillClient(c: Setting, m: Machine, t: Tid, mem: Mem, usr: Ptr, m': Machine)
    requires Consistent(c, m) && Consistent(c, m') && t in m.pcs && Fills(c, m, t, mem, usr, m')
    requires Good(m.heap) && Good(m'.heap)
    ensures var e := EffectOf(m, t, Fill(mem, usr)); Client(m'.heap) == Apply(Client(m.heap), e) && Sensible(Client(m.heap), e)
  {
    hide Consistent, Inv, Good, Evolves, Client, SlopOk, Furnished;
    StepFill(c, m, t, mem, usr, m');
    Facts(c, m, t);
    ClientGains(m.heap, m'.heap, m.pcs[t].h);
  }

  lemma StampClient(c: Setting, m: Machine, t: Tid, m': Machine)
    requires Consistent(c, m) && Consistent(c, m') && t in m.pcs && Stamps(c, m, t, m')
    requires Good(m.heap) && Good(m'.heap)
    ensures var e := EffectOf(m, t, Stamp); Client(m'.heap) == Apply(Client(m.heap), e) && Sensible(Client(m.heap), e)
  {
    hide Consistent, Inv, Good, Evolves, Client, SlopOk;
    StepStamp(c, m, t, m');
    Facts(c, m, t);
    ClientLoses(m.heap, m'.heap, m.pcs[t].h);
  }

  lemma WriteClient(c: Setting, m: Machine, t: Tid, h: Ptr, mem: Mem, m': Machine)
    requires Consistent(c, m) && t in m.pcs && Writes(c, m, t, h, mem, m')
    requires Good(m.heap) && Good(m'.heap)
    ensures var e := EffectOf(m, t, Write(h, mem)); Client(m'.heap) == Apply(Client(m.heap), e) && Sensible(Client(m.heap), e)
  {
    hide Consistent, Inv, Good, Evolves, Client, SlopOk, AgreeOutside;
    Facts(c, m, t);
    assert HeldAt(m, h);
    StoreInv(m.heap, mem, h);
    BystanderContents(m.heap, m.heap.blk[h].usr, h);
  }

  /** What a thread's `malloc` returns is placed as if it had been the only thread: in the smallest block that
      fits, aligned, and as close to the guard page as that allows. */
  lemma FillPlaced(c: Setting, m: Machine, t: Tid, mem: Mem, usr: Ptr, m': Machine)
    requires Consistent(c, m) && Does(c, m, t, Fill(mem, usr), m')
    ensures var h := m.pcs[t].h; var req := m.pcs[t].req;
      && LiveAt(m'.heap, usr, h) && m'.heap.blk[h].size == req.size && SlopAt(m'.heap.mem, h, m'.heap.blk[h])
      && Placement(m'.heap.hdrSize, h, m'.heap.blk[h].bin, usr, req.alignment, req.size)
  {
    hide Consistent, Inv, SlopOk, Reachable, IsFilled, IsWord, L.Servable, L.BinFor, L.AllocSize, L.Misalignment, L.SmallestBin;
    Facts(c, m, t);
    var h, req, b := m.pcs[t].h, m.pcs[t].req, m.heap.blk[m.pcs[t].h];
    L.LayoutFits(h, m.heap.hdrSize, req.alignment, req.size, b.bin);
    L.BinSmallest(m.heap.hdrSize, req.alignment, req.size);
  }

  /** Every step of every thread is one step of the plain map the program has in mind, or none. */
  lemma ThreadStepRefines(c: Setting, m: Machine, t: Tid, a: Action, m': Machine)
    requires Consistent(c, m) && Does(c, m, t, a, m')
    ensures Good(m.heap) && Good(m'.heap)
    ensures Client(m'.heap) == Apply(Client(m.heap), EffectOf(m, t, a)) && Sensible(Client(m.heap), EffectOf(m, t, a))
  {
    hide Consistent, Inv, Good, Unseen, Client, SlopOk;
    hide Carves, PushesNew, Pops, PushesUsed, Fills, Stamps, PopsUsed, PushesFree, DrainsOne, PushesDrained;
    hide QueuesUp, Writes;
    StepKeeps(c, m, t, a, m');
    ConsistentGood(c, m);
    ConsistentGood(c, m');
    match a
    case Carve(start) => StepCarve(c, m, t, start, m'); UnseenClient(m.heap, m'.heap);
    case PushNew => StepPushNew(c, m, t, m'); UnseenClient(m.heap, m'.heap);
    case Pop => StepPop(c, m, t, m'); UnseenClient(m.heap, m'.heap);
    case PushUsed => StepPushUsed(c, m, t, m'); UnseenClient(m.heap, m'.heap);
    case Fill(mem, usr) => FillClient(c, m, t, mem, usr, m');
    case Stamp => StampClient(c, m, t, m');
    case PopUsed(k) => StepPopUsed(c, m, t, k, m'); UnseenClient(m.heap, m'.heap);
    case PushFree => StepPushFree(c, m, t, m'); UnseenClient(m.heap, m'.heap);
    case DrainGet => StepDrainGet(c, m, t, m'); UnseenClient(m.heap, m'.heap);
    case PushDrained => StepPushDrained(c, m, t, m'); UnseenClient(m.heap, m'.heap);
    case Queue => StepQueue(c, m, t, m'); UnseenClient(m.heap, m'.heap);
    case Write(h, mem) => WriteClient(c, m, t, h, mem, m');
    case _ => assert m'.heap == m.heap;
  }

  // ---------------------------------------------------------------- whole runs

  datatype Step = Step(t: Tid, a: Action)

  /** The ring of slot i holds the blocks delayed since the last drain that is due has been done. */
  ghost predicate OnTime(c: Setting, m: Machine, i: nat) {
    Ring(m.heap, i) == PutsOf(m, i)[D.Released(c.cap, |PutsOf(m, i)|)..]
  }

  /** No thread is inside the allocator, and the heap is as the calls of a single thread leave it. */
  ghost predicate Start(c: Setting, m: Machine) {
    && c.cap >= 4 && c.cap % 4 == 0
    && HeapGood(m.heap) && SlopOk(m.heap) && Settled(m.heap.blk, NULL)
    && ListsOk(m.heap.lists.Keys, c.numSlots) && (forall i: nat | i < c.numSlots :: OnTime(c, m, i))
    && (forall t | t in m.pcs :: m.pcs[t] == Idle) && m.locks == map[]
    && m.hand == map h | h in m.heap.blk && m.heap.blk[h].own.Used? :: Program
  }

  ghost predicate IsThreadRun(c: Setting, ms: seq<Machine>, steps: seq<Step>) {
    && |ms| == |steps| + 1 && Start(c, ms[0])
    && forall k | 0 <= k < |steps| :: Does(c, ms[k], steps[k].t, steps[k].a, ms[k + 1])
  }

  lemma StartConsistent(c: Setting, m: Machine)
    requires Start(c, m)
    ensures Consistent(c, m)
  {
    hide Inv, SlopOk, Ring, D.Released;
    ZoneFacts(m.heap);
    forall i: nat | i < c.numSlots ensures |Ring(m.heap, i)| <= c.cap / 2 + 1 {
      assert OnTime(c, m, i);
      D.QueueBound(c.cap, |PutsOf(m, i)|);
    }
  }

  /** Every state of every interleaved run is consistent. */
  lemma {:induction false} RunConsistent(c: Setting, ms: seq<Machine>, steps: seq<Step>, k: nat)
    requires IsThreadRun(c, ms, steps) && k <= |steps|
    ensures Consistent(c, ms[k])
  {
    hide Consistent, Start, Does;
    if k == 0 {
      StartConsistent(c, ms[0]);
    } else {
      RunConsistent(c, ms, steps, k - 1);
      assert Does(c, ms[k - 1], steps[k - 1].t, steps[k - 1].a, ms[k]);
      StepKeeps(c, ms[k - 1], steps[k - 1].t, steps[k - 1].a, ms[k]);
    }
  }

  /** Under every interleaving of any number of threads whose program frees each pointer at most once and
      writes in bounds: no assertion but that on the number of pools fails, no thread touches a protected page
      or a block another thread works on, and no ring outgrows half its capacity and one. */
  lemma InterleavingSafe(c: Setting, ms: seq<Machine>, steps: seq<Step>, k: nat, t: Tid)
    requires IsThreadRun(c, ms, steps) && k <= |steps| && t in ms[k].pcs
    ensures !Aborts(c, ms[k], t) && Touchable(ms[k], t)
    ensures forall u | u in ms[k].pcs && u != t :: Hands(ms[k].pcs[u]) !! Hands(ms[k].pcs[t])
    ensures forall i: nat | i < c.numSlots :: |Ring(ms[k].heap, i)| <= c.cap / 2 + 1
    ensures forall l, h | l in ms[k].heap.lists && l.UsedList? && h in ms[k].heap.lists[l] :: WindowAt(ms[k], h)
  {
    hide Consistent, Start, Does, Aborts, Touchable, Ring, WindowAt;
    forall l, h | l in ms[k].heap.lists && l.UsedList? && h in ms[k].heap.lists[l] ensures WindowAt(ms[k], h) {
      RunConsistent(c, ms, steps, k);
      WindowsExact(c, ms[k], l, h);
    }
    RunConsistent(c, ms, steps, k);
    NeverAborts(c, ms[k], t);
    NeverFaults(c, ms[k], t);
    Facts(c, ms[k], t);
    forall u | u in ms[k].pcs && u != t ensures Hands(ms[k].pcs[u]) !! Hands(ms[k].pcs[t]) {
      NoSharing(c, ms[k], u, t);
    }
  }

  function Effects(ms: seq<Machine>, steps: seq<Step>, k: nat): seq<Effect>
    requires k <= |steps| && |ms| == |steps| + 1
  {
    if k == 0 then []
    else Effects(ms, steps, k - 1) + [if steps[k - 1].t in ms[k - 1].pcs then EffectOf(ms[k - 1], steps[k - 1].t, steps[k - 1].a) else Nothing]
  }

  /** Every interleaved run refines the plain map: the program always sees what replaying the effects, in
      the order in which they took place, gives. */
  lemma {:induction false} InterleavingRefines(c: Setting, ms: seq<Machine>, steps: seq<Step>, k: nat)
    requires IsThreadRun(c, ms, steps) && k <= |steps|
    ensures Good(ms[0].heap) && Good(ms[k].heap)
    ensures Client(ms[k].heap) == Replay(Client(ms[0].heap), Effects(ms, steps, k))
  {
    hide Consistent, Start, Does, Good, Client, EffectOf;
    RunConsistent(c, ms, steps, k);
    ConsistentGood(c, ms[k]);
    RunConsistent(c, ms, steps, 0);
    ConsistentGood(c, ms[0]);
    if k != 0 {
      InterleavingRefines(c, ms, steps, k - 1);
      RunConsistent(c, ms, steps, k - 1);
      var t, a := steps[k - 1].t, steps[k - 1].a;
      assert Does(c, ms[k - 1], t, a, ms[k]);
      DoesThread(c, ms[k - 1], t, a, ms[k]);
      ThreadStepRefines(c, ms[k - 1], t, a, ms[k]);
      var es := Effects(ms, steps, k);
      assert es[..|es| - 1] == Effects(ms, steps, k - 1);
    }
  }

  lemma DoesThread(c: Setting, m: Machine, t: Tid, a: Action, m': Machine)
    requires Does(c, m, t, a, m')
    ensures t in m.pcs
  {
  }
}
