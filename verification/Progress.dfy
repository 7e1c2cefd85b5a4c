// How long things take when threads interleave: blocks in quarantine, and calls.
module Progress {
  import opened Bits
  import opened Memory
  import opened Lists
  import opened Heap
  import opened Steps
  import opened UserData
  import opened Moves
  import opened Interleaving
  import P = Pools
  import D = DelayFree
  import L = Layout
  import T = Ties

  // ---------------------------------------------------------------- the schedule of the rings

  ghost predicate Suffix(q: seq<Ptr>, p: seq<Ptr>) {
    |q| <= |p| && q == p[|p| - |q|..]
  }

  /** Where the thread that holds slot i's lock is, or Idle if nobody does. */
  function PcIn(m: Machine, i: nat): Pc {
    if i in m.locks && m.locks[i] in m.pcs then m.pcs[m.locks[i]] else Idle
  }

  /** What a thread at pc, in slot i, has left of the ring, given that n blocks were delayed before. */
  ghost predicate Due(c: Setting, n: nat, left: nat, pc: Pc) {
    match pc
    case Draining(_, _, _) => c.cap / 2 < n - D.Released(c.cap, n) && c.cap / 4 <= left
    case Released(_, _, _, _, _) => c.cap / 2 < n - D.Released(c.cap, n) && c.cap / 4 <= left
    case Queueing(_, _, _) => left == n - D.Released(c.cap, n + 1)
    case _ => left == n - D.Released(c.cap, n)
  }

  ghost predicate SlotScheduled(c: Setting, m: Machine, i: nat) {
    && Suffix(Ring(m.heap, i), PutsOf(m, i))
    && Due(c, |PutsOf(m, i)|, |Ring(m.heap, i)|, PcIn(m, i))
    && (PcIn(m, i).Replenish? && PcIn(m, i).again ==> ListAt(m.heap.lists, FreeList(i, PcIn(m, i).b)) != [])
  }

  ghost predicate Scheduled(c: Setting, m: Machine) {
    forall i: nat | i < c.numSlots :: SlotScheduled(c, m, i)
  }

  /** Only lists of slot i differ. */
  ghost predicate Local(ls: map<ListId, seq<Ptr>>, ls': map<ListId, seq<Ptr>>, i: int) {
    forall l | T.SlotOf(l) != i :: ListAt(ls', l) == ListAt(ls, l)
  }

  /** A step only touches the lists and the history of the slot whose lock its thread holds. */
  lemma StepLocal(c: Setting, m: Machine, t: Tid, a: Action, m': Machine)
    requires Does(c, m, t, a, m') && t in m.pcs
    ensures t in m'.pcs && m'.pcs == m.pcs[t := m'.pcs[t]] && Locks(m, t, m')
    ensures Local(m.heap.lists, m'.heap.lists, InSlot(m.pcs[t]))
    ensures forall j: nat | j != InSlot(m.pcs[t]) :: PutsOf(m', j) == PutsOf(m, j)
  {
    hide Does, Local, Locks;
    StepPcs(c, m, t, a, m');
    StepLists(c, m, t, a, m');
    StepPuts(c, m, t, a, m');
  }

  /** The actions of `malloc`. */
  predicate Gets(a: Action) {
    a.Ask? || a.Carve? || a.PushNew? || a.GiveUp? || a.Pop? || a.PushUsed? || a.Unlock? || a.Vet? || a.Fill?
  }

  lemma StepPcs(c: Setting, m: Machine, t: Tid, a: Action, m': Machine)
    requires Does(c, m, t, a, m') && t in m.pcs
    ensures t in m'.pcs && m'.pcs == m.pcs[t := m'.pcs[t]] && Locks(m, t, m')
  {
    hide Does, Locks;
    if Gets(a) {
      GetPcs(c, m, t, a, m');
    } else {
      PutPcs(c, m, t, a, m');
    }
  }

  lemma GetPcs(c: Setting, m: Machine, t: Tid, a: Action, m': Machine)
    requires Does(c, m, t, a, m') && t in m.pcs && Gets(a)
    ensures t in m'.pcs && m'.pcs == m.pcs[t := m'.pcs[t]] && Locks(m, t, m')
  {
    hide CallsFree, ChecksFree, ChecksPut, Stamps, LocksPut, PopsUsed, PushesFree, TestsRing, DrainsOne, PushesDrained;
    hide DrainsNoMore, QueuesUp, Writes;
    hide Attach, Detach, Quarantine, Unquarantine, CarveFrom, Roomy, Commit, Interleaving.Stamping, Resize, Ring;
    hide WantsMore, Furnished, FillsAt, Unmapped, L.BinFor, L.Servable, L.AllocSize, LinkFront, Unlink, P.GrowSize;
  }

  lemma PutPcs(c: Setting, m: Machine, t: Tid, a: Action, m': Machine)
    requires Does(c, m, t, a, m') && t in m.pcs && !Gets(a)
    ensures t in m'.pcs && m'.pcs == m.pcs[t := m'.pcs[t]] && Locks(m, t, m')
  {
    hide Asks, Carves, PushesNew, GivesUp, Pops, PushesUsed, Unlocks, Vets, Fills;
    hide Attach, Detach, Quarantine, Unquarantine, CarveFrom, Roomy, Commit, Interleaving.Stamping, Resize, Ring;
    hide WantsMore, Furnished, FillsAt, Unmapped, L.BinFor, L.Servable, L.AllocSize, LinkFront, Unlink, P.GrowSize;
  }

  lemma StepLists(c: Setting, m: Machine, t: Tid, a: Action, m': Machine)
    requires Does(c, m, t, a, m') && t in m.pcs
    ensures Local(m.heap.lists, m'.heap.lists, InSlot(m.pcs[t]))
  {
    hide Attach, Detach, Quarantine, Unquarantine, CarveFrom, Roomy, Commit, Interleaving.Stamping, Resize, Ring;
    hide WantsMore, Furnished, L.BinFor, L.Servable, L.AllocSize, Local;
    var s, pc := m.heap, m.pcs[t];
    LocalSame(s.lists, InSlot(pc));
    match a
    case Carve(start) => CarveLocal(s, pc.b, start, pc.i);
    case PushNew => AttachLocal(s, FreeList(pc.i, pc.b), pc.h, Avail);
    case Pop => DetachLocal(s, FreeList(pc.i, pc.b), 0, First(ListAt(s.lists, FreeList(pc.i, pc.b))));
    case PushUsed =>
      AttachLocal(s, UsedList(pc.i, pc.b), pc.h, Taken);
      SameLists(Attach(s, UsedList(pc.i, pc.b), pc.h, Taken), pc.h, pc.req.size, map[], 0);
    case Fill(mem, usr) => SameLists(s, pc.h, 0, mem, usr);
    case Stamp => SameLists(s, pc.h, 0, map[], 0);
    case PopUsed(k) => DetachLocal(s, UsedList(pc.i, pc.b), k, pc.h);
    case PushFree => AttachLocal(s, FreeList(pc.i, pc.b), pc.h, Avail);
    case DrainGet => RingLocal(s, pc.i, First(Ring(s, pc.i)), HdrAt(s.mem, First(Ring(s, pc.i))).binNum);
    case PushDrained => AttachLocal(s, FreeList(pc.i, pc.d), pc.g, Avail);
    case Queue => RingLocal(s, pc.i, pc.h, pc.b);
    case _ =>
  }

  lemma LocalSame(ls: map<ListId, seq<Ptr>>, i: int)
    ensures Local(ls, ls, i)
  {
  }

  lemma AttachLocal(s: State, l: ListId, h: Ptr, own: Owner)
    ensures Local(s.lists, Attach(s, l, h, own).lists, T.SlotOf(l))
  {
  }

  lemma DetachLocal(s: State, l: ListId, k: nat, h: Ptr)
    ensures Local(s.lists, Detach(s, l, k, h).lists, T.SlotOf(l))
  {
  }

  lemma RingLocal(s: State, i: nat, h: Ptr, bin: nat)
    ensures Local(s.lists, Quarantine(s, DelayRing(i), h, bin).lists, i)
    ensures Local(s.lists, Unquarantine(s, DelayRing(i), h, bin).lists, i)
  {
  }

  lemma CarveLocal(s: State, b: nat, start: Ptr, i: nat)
    ensures CarveFrom(Roomy(s, b, start), i, b).lists == s.lists
  {
    CarveLists(Roomy(s, b, start), i, b);
  }

  lemma SameLists(s: State, h: Ptr, size: nat, mem: Mem, usr: Ptr)
    ensures Resize(s, h, size).lists == s.lists && Commit(s, h, mem, usr).lists == s.lists
    ensures Interleaving.Stamping(s, h).lists == s.lists
  {
  }

  lemma StepPuts(c: Setting, m: Machine, t: Tid, a: Action, m': Machine)
    requires Does(c, m, t, a, m') && t in m.pcs
    ensures forall j: nat | j != InSlot(m.pcs[t]) :: PutsOf(m', j) == PutsOf(m, j)
    ensures !a.Queue? ==> m'.puts == m.puts
  {
    hide Attach, Detach, Quarantine, Unquarantine, CarveFrom, Roomy, Commit, Interleaving.Stamping, Resize, Ring;
    hide WantsMore, Furnished, L.BinFor, L.Servable, L.AllocSize;
  }

  lemma LocksFacts(c: Setting, m: Machine)
    requires Consistent(c, m)
    ensures LocksOk(m) && c.cap >= 4 && c.cap % 4 == 0
  {
    hide HeapGood, SlopOk, ThreadOk, HandsOk, RingsOk;
  }

  /** A thread that takes a slot's lock finds nothing half done. */
  lemma Enters(c: Setting, m: Machine, t: Tid, a: Action, m': Machine)
    requires Does(c, m, t, a, m') && t in m.pcs && t in m'.pcs && InSlot(m.pcs[t]) < 0 <= InSlot(m'.pcs[t])
    ensures forall n: nat, left: nat :: Due(c, n, left, m'.pcs[t]) <==> Due(c, n, left, Idle)
    ensures m'.pcs[t].Replenish? ==> !m'.pcs[t].again
  {
    hide LinkFront, Unlink, Furnished, P.GrowSize, L.BinFor, L.Servable, L.AllocSize;
  }

  lemma OtherSlot(c: Setting, m: Machine, t: Tid, a: Action, m': Machine, j: nat)
    requires Consistent(c, m) && Does(c, m, t, a, m') && t in m.pcs && j != InSlot(m.pcs[t]) && SlotScheduled(c, m, j)
    ensures SlotScheduled(c, m', j)
  {
    hide Does, Consistent, Due;
    StepLocal(c, m, t, a, m');
    LocksFacts(c, m);
    assert Ring(m'.heap, j) == Ring(m.heap, j);
    if j == InSlot(m'.pcs[t]) {
      Enters(c, m, t, a, m');
    } else {
      assert PcIn(m', j) == PcIn(m, j);
      assert forall b: nat :: ListAt(m'.heap.lists, FreeList(j, b)) == ListAt(m.heap.lists, FreeList(j, b));
    }
  }

  function After(m': Machine, t: Tid, i: nat): Pc
    requires t in m'.pcs
  {
    if InSlot(m'.pcs[t]) == i then m'.pcs[t] else Idle
  }

  lemma OwnGet(c: Setting, m: Machine, t: Tid, m': Machine, i: nat)
    requires t in m.pcs && t in m'.pcs && DrainsOne(c, m, t, m') && i == InSlot(m.pcs[t]) && DelayRing(i) in m.heap.lists
    requires Suffix(Ring(m.heap, i), PutsOf(m, i)) && Due(c, |PutsOf(m, i)|, |Ring(m.heap, i)|, m.pcs[t])
    ensures Suffix(Ring(m'.heap, i), PutsOf(m', i)) && Due(c, |PutsOf(m', i)|, |Ring(m'.heap, i)|, After(m', t, i))
  {
    hide D.Released, Suffix;
    assert Ring(m'.heap, i) == Ring(m.heap, i)[1..];
    SuffixTail(Ring(m.heap, i), PutsOf(m, i));
  }

  lemma OwnQueue(c: Setting, m: Machine, t: Tid, m': Machine, i: nat)
    requires t in m.pcs && t in m'.pcs && QueuesUp(c, m, t, m') && i == InSlot(m.pcs[t]) && DelayRing(i) in m.heap.lists
    requires Suffix(Ring(m.heap, i), PutsOf(m, i)) && Due(c, |PutsOf(m, i)|, |Ring(m.heap, i)|, m.pcs[t])
    ensures Suffix(Ring(m'.heap, i), PutsOf(m', i)) && Due(c, |PutsOf(m', i)|, |Ring(m'.heap, i)|, After(m', t, i))
  {
    hide D.Released, Suffix;
    assert Ring(m'.heap, i) == Ring(m.heap, i) + [m.pcs[t].h];
    SuffixGrows(Ring(m.heap, i), PutsOf(m, i), m.pcs[t].h);
  }

  /** A drain begins when it is due and ends when it has done what is due. */
  lemma OwnTurn(c: Setting, m: Machine, t: Tid, a: Action, m': Machine, i: nat)
    requires t in m.pcs && t in m'.pcs && i == InSlot(m.pcs[t]) && c.cap % 4 == 0
    requires (a.TestRing? && TestsRing(c, m, t, m')) || (a.DrainDone? && DrainsNoMore(c, m, t, m'))
    requires Due(c, |PutsOf(m, i)|, |Ring(m.heap, i)|, m.pcs[t])
    ensures Ring(m'.heap, i) == Ring(m.heap, i) && PutsOf(m', i) == PutsOf(m, i)
    ensures Due(c, |PutsOf(m', i)|, |Ring(m'.heap, i)|, After(m', t, i))
  {
    ReleasedNext(c.cap, |PutsOf(m, i)|);
    hide D.Released;
  }

  /** The rings change only in the steps that get from them and put to them. */
  lemma RestRing(c: Setting, m: Machine, t: Tid, a: Action, m': Machine, i: nat)
    requires t in m.pcs && Does(c, m, t, a, m') && !a.DrainGet? && !a.Queue?
    ensures Ring(m'.heap, i) == Ring(m.heap, i)
  {
    hide LinkFront, Unlink, Furnished, P.GrowSize, L.BinFor, L.Servable, L.AllocSize, WantsMore;
  }

  lemma RestDue(c: Setting, m: Machine, t: Tid, a: Action, m': Machine, i: nat, n: nat, left: nat)
    requires t in m.pcs && t in m'.pcs && i == InSlot(m.pcs[t]) && Does(c, m, t, a, m')
    requires !a.DrainGet? && !a.Queue? && !a.TestRing? && !a.DrainDone?
    ensures Due(c, n, left, m.pcs[t]) ==> Due(c, n, left, After(m', t, i))
  {
    hide D.Released, Attach, Detach, Quarantine, Unquarantine, CarveFrom, Roomy, Commit, Interleaving.Stamping, Resize;
    hide WantsMore, Furnished, L.BinFor, L.Servable, L.AllocSize, Ring;
  }

  lemma RestAgain(c: Setting, m: Machine, t: Tid, a: Action, m': Machine, i: nat)
    requires t in m.pcs && t in m'.pcs && i == InSlot(m.pcs[t]) && Does(c, m, t, a, m')
    ensures After(m', t, i).Replenish? && After(m', t, i).again ==>
      ListAt(m'.heap.lists, FreeList(i, After(m', t, i).b)) != []
  {
    hide LinkFront, Detach, Quarantine, Unquarantine, CarveFrom, Roomy, Commit, Interleaving.Stamping, Resize;
    hide WantsMore, Furnished, L.BinFor, L.Servable, L.AllocSize, Ring;
  }

  lemma OwnRest(c: Setting, m: Machine, t: Tid, a: Action, m': Machine, i: nat)
    requires t in m.pcs && t in m'.pcs && i == InSlot(m.pcs[t]) && Does(c, m, t, a, m')
    requires !a.DrainGet? && !a.Queue? && !a.TestRing? && !a.DrainDone?
    requires Due(c, |PutsOf(m, i)|, |Ring(m.heap, i)|, m.pcs[t])
    ensures Ring(m'.heap, i) == Ring(m.heap, i) && PutsOf(m', i) == PutsOf(m, i)
    ensures Due(c, |PutsOf(m', i)|, |Ring(m'.heap, i)|, After(m', t, i))
  {
    hide Does, Due, Ring;
    RestRing(c, m, t, a, m', i);
    StepPuts(c, m, t, a, m');
    RestDue(c, m, t, a, m', i, |PutsOf(m, i)|, |Ring(m.heap, i)|);
  }

  /** A step keeps the ring of its own slot on schedule. */
  lemma OwnSlot(c: Setting, m: Machine, t: Tid, a: Action, m': Machine, i: nat)
    requires Consistent(c, m) && Does(c, m, t, a, m') && t in m.pcs && i == InSlot(m.pcs[t]) && i < c.numSlots
    requires SlotScheduled(c, m, i)
    ensures SlotScheduled(c, m', i)
  {
    hide Consistent, SlotScheduled, Due, Suffix, Local, Locks, LocksOk, After, Ring, PutsOf;
    hide Asks, Carves, PushesNew, GivesUp, Pops, PushesUsed, Unlocks, Vets, Fills, CallsFree, ChecksFree, ChecksPut;
    hide Stamps, LocksPut, PopsUsed, PushesFree, TestsRing, DrainsOne, PushesDrained, DrainsNoMore, QueuesUp, Writes;
    LocksFacts(c, m);
    StepLocal(c, m, t, a, m');
    Here(c, m, t, i);
    ListThere(c, m, i, MIN_BIN);
    RestAgain(c, m, t, a, m', i);
    NextLock(m, t, m', i);
    match a
    case DrainGet => OwnGet(c, m, t, m', i); SlotNow(c, m', i, t);
    case Queue => OwnQueue(c, m, t, m', i); SlotNow(c, m', i, t);
    case TestRing => OwnTurn(c, m, t, a, m', i); SlotNow(c, m', i, t);
    case DrainDone => OwnTurn(c, m, t, a, m', i); SlotNow(c, m', i, t);
    case _ => OwnRest(c, m, t, a, m', i); SlotNow(c, m', i, t);
  }

  lemma NextLock(m: Machine, t: Tid, m': Machine, i: nat)
    requires LocksOk(m) && t in m.pcs && t in m'.pcs && Locks(m, t, m') && i == InSlot(m.pcs[t])
    ensures InSlot(m'.pcs[t]) == i ==> i in m'.locks && m'.locks[i] == t
    ensures InSlot(m'.pcs[t]) != i ==> i !in m'.locks
  {
  }

  lemma Here(c: Setting, m: Machine, t: Tid, i: nat)
    requires LocksOk(m) && t in m.pcs && i == InSlot(m.pcs[t]) && SlotScheduled(c, m, i)
    ensures PcIn(m, i) == m.pcs[t] && Suffix(Ring(m.heap, i), PutsOf(m, i))
    ensures Due(c, |PutsOf(m, i)|, |Ring(m.heap, i)|, m.pcs[t])
    ensures m.pcs[t].Replenish? && m.pcs[t].again ==> ListAt(m.heap.lists, FreeList(i, m.pcs[t].b)) != []
  {
  }

  lemma ReleasedNext(cap: nat, n: nat)
    ensures D.Released(cap, n + 1) ==
      if n - D.Released(cap, n) > cap / 2 then Max(D.Released(cap, n), n - cap / 4) else D.Released(cap, n)
  {
  }

  lemma SuffixTail(q: seq<Ptr>, p: seq<Ptr>)
    requires Suffix(q, p) && q != []
    ensures Suffix(q[1..], p)
  {
  }

  lemma SuffixGrows(q: seq<Ptr>, p: seq<Ptr>, h: Ptr)
    requires Suffix(q, p)
    ensures Suffix(q + [h], p + [h])
  {
  }

  lemma SlotNow(c: Setting, m': Machine, i: nat, t: Tid)
    requires t in m'.pcs && (InSlot(m'.pcs[t]) == i ==> i in m'.locks && m'.locks[i] == t)
    requires InSlot(m'.pcs[t]) != i ==> i !in m'.locks
    requires Suffix(Ring(m'.heap, i), PutsOf(m', i))
    requires Due(c, |PutsOf(m', i)|, |Ring(m'.heap, i)|, After(m', t, i))
    requires After(m', t, i).Replenish? && After(m', t, i).again ==>
      ListAt(m'.heap.lists, FreeList(i, After(m', t, i).b)) != []
    ensures SlotScheduled(c, m', i)
  {
  }

  /** Every step of every thread keeps every ring on its schedule. */
  lemma StepScheduled(c: Setting, m: Machine, t: Tid, a: Action, m': Machine)
    requires Consistent(c, m) && Scheduled(c, m) && Does(c, m, t, a, m')
    ensures Scheduled(c, m')
  {
    hide Does, Consistent, SlotScheduled;
    DoesThread(c, m, t, a, m');
    forall i: nat | i < c.numSlots ensures SlotScheduled(c, m', i) {
      assert SlotScheduled(c, m, i);
      if i == InSlot(m.pcs[t]) {
        OwnSlot(c, m, t, a, m', i);
      } else {
        OtherSlot(c, m, t, a, m', i);
      }
    }
  }

  lemma StartScheduled(c: Setting, m: Machine)
    requires Start(c, m)
    ensures Scheduled(c, m)
  {
    hide SlotScheduled, OnTime, HeapGood, SlopOk;
    forall i: nat | i < c.numSlots ensures SlotScheduled(c, m, i) {
      SlotStarts(c, m, i);
    }
  }

  lemma SlotStarts(c: Setting, m: Machine, i: nat)
    requires c.cap >= 4 && c.cap % 4 == 0 && m.locks == map[] && OnTime(c, m, i)
    ensures SlotScheduled(c, m, i)
  {
    hide D.Released, Ring, PutsOf;
    D.QueueBound(c.cap, |PutsOf(m, i)|);
  }

  /** Every ring is on schedule in every state of every interleaved run. */
  lemma {:induction false} RunScheduled(c: Setting, ms: seq<Machine>, steps: seq<Step>, k: nat)
    requires IsThreadRun(c, ms, steps) && k <= |steps|
    ensures Scheduled(c, ms[k])
  {
    hide Consistent, Scheduled, Start, Does;
    if k == 0 {
      StartScheduled(c, ms[0]);
    } else {
      RunScheduled(c, ms, steps, k - 1);
      RunConsistent(c, ms, steps, k - 1);
      assert Does(c, ms[k - 1], steps[k - 1].t, steps[k - 1].a, ms[k]);
      StepScheduled(c, ms[k - 1], steps[k - 1].t, steps[k - 1].a, ms[k]);
    }
  }

  /** Under any interleaving: between puts, a block is in the ring exactly if one of its puts is not yet due. */
  lemma InterleavedQuarantine(c: Setting, m: Machine, i: nat, h: Ptr)
    requires Consistent(c, m) && Scheduled(c, m) && i < c.numSlots && i !in m.locks
    ensures h in Ring(m.heap, i) <==>
      exists k | 0 <= k < |PutsOf(m, i)| :: PutsOf(m, i)[k] == h && |PutsOf(m, i)| < D.ReleaseAt(c.cap, k + 1)
  {
    hide Consistent, D.ReleaseAt, D.Released, Ring, PutsOf;
    LocksFacts(c, m);
    assert SlotScheduled(c, m, i);
    var p := PutsOf(m, i);
    var r := D.Released(c.cap, |p|);
    assert Ring(m.heap, i) == p[r..];
    assert h in Ring(m.heap, i) <==> exists k | r <= k < |p| :: p[k] == h;
    forall k {:trigger p[k]} | 0 <= k < |p| ensures r <= k <==> |p| < D.ReleaseAt(c.cap, k + 1) {
      D.QuarantineWindow(c.cap, k + 1, |p|);
    }
  }

  /** Even while a put is under way: for cap/4 later puts into its slot a freed block stays inaccessible, and
      no thread has it. */
  lemma StaysOut(c: Setting, m: Machine, i: nat, k: nat)
    requires Consistent(c, m) && Scheduled(c, m) && i < c.numSlots
    requires k < |PutsOf(m, i)| <= k + c.cap / 4
    ensures var h := PutsOf(m, i)[k];
      h in m.heap.blk && m.heap.blk[h].own.Delayed? && h !in m.hand
      && Blocked(m.heap.noAccess, h, Span(m.heap.blk[h]))
  {
    hide Consistent, D.ReleaseAt, D.Released, PutsOf, HeapGood;
    LocksFacts(c, m);
    assert SlotScheduled(c, m, i);
    var p := PutsOf(m, i);
    var ring := Ring(m.heap, i);
    ReleasedNext(c.cap, |p|);
    D.QuarantineWindow(c.cap, k + 1, |p|);
    var at := k - (|p| - |ring|);
    assert 0 <= at < |ring| && ring[at] == p[k];
    InRing(c, m, i, p[k]);
  }

  lemma InRing(c: Setting, m: Machine, i: nat, h: Ptr)
    requires Consistent(c, m) && i < c.numSlots && h in Ring(m.heap, i)
    ensures h in m.heap.blk && m.heap.blk[h].own.Delayed? && h !in m.hand
    ensures Blocked(m.heap.noAccess, h, Span(m.heap.blk[h]))
  {
    hide Consistent, Inv, Blocked;
    ListThere(c, m, i, MIN_BIN);
    ConsistentGood(c, m);
    ListFacts(m.heap, DelayRing(i));
    BlockFacts(m.heap, h);
    NotHeld(c, m, h);
    AllBlocked(m.heap.noAccess, h, m.heap.blk[h]);
  }

  lemma AllBlocked(noAccess: set<Ptr>, h: Ptr, b: Block)
    requires Blocked(noAccess, h, Pow2(b.bin)) && Blocked(noAccess, h + Pow2(b.bin), PAGE_SIZE)
    ensures Blocked(noAccess, h, Span(b))
  {
  }

  // ---------------------------------------------------------------- with and without delayed frees

  /** Only with delayed frees is a thread ever at work on a ring, and only without does it retire a block directly. */
  predicate OnRoute(c: Setting, pc: Pc) {
    if c.useDelay then !pc.Retiring? else !pc.Removed? && !pc.Draining? && !pc.Released? && !pc.Queueing?
  }

  lemma StepOnRoute(c: Setting, m: Machine, t: Tid, a: Action, m': Machine)
    requires Does(c, m, t, a, m') && t in m.pcs && OnRoute(c, m.pcs[t])
    ensures t in m'.pcs && m'.pcs == m.pcs[t := m'.pcs[t]] && OnRoute(c, m'.pcs[t])
  {
    hide Locks, Does, OnRoute;
    StepPcs(c, m, t, a, m');
    if Gets(a) {
      GetOnRoute(c, m, t, a, m');
    } else {
      PutOnRoute(c, m, t, a, m');
    }
  }

  lemma GetOnRoute(c: Setting, m: Machine, t: Tid, a: Action, m': Machine)
    requires Does(c, m, t, a, m') && t in m.pcs && t in m'.pcs && Gets(a)
    ensures OnRoute(c, m'.pcs[t])
  {
    hide CallsFree, ChecksFree, ChecksPut, Stamps, LocksPut, PopsUsed, PushesFree, TestsRing, DrainsOne, PushesDrained;
    hide DrainsNoMore, QueuesUp, Writes;
    hide Attach, Detach, Quarantine, Unquarantine, CarveFrom, Roomy, Commit, Interleaving.Stamping, Resize, Ring;
    hide WantsMore, Furnished, FillsAt, Unmapped, L.BinFor, L.Servable, L.AllocSize, LinkFront, Unlink, P.GrowSize;
  }

  lemma PutOnRoute(c: Setting, m: Machine, t: Tid, a: Action, m': Machine)
    requires Does(c, m, t, a, m') && t in m.pcs && t in m'.pcs && !Gets(a) && OnRoute(c, m.pcs[t])
    ensures OnRoute(c, m'.pcs[t])
  {
    hide Asks, Carves, PushesNew, GivesUp, Pops, PushesUsed, Unlocks, Vets, Fills;
    hide Attach, Detach, Quarantine, Unquarantine, CarveFrom, Roomy, Commit, Interleaving.Stamping, Resize, Ring;
    hide WantsMore, Furnished, FillsAt, Unmapped, L.BinFor, L.Servable, L.AllocSize, LinkFront, Unlink, P.GrowSize;
  }

  lemma {:induction false} RunOnRoute(c: Setting, ms: seq<Machine>, steps: seq<Step>, k: nat)
    requires IsThreadRun(c, ms, steps) && k <= |steps|
    ensures forall t | t in ms[k].pcs :: OnRoute(c, ms[k].pcs[t])
  {
    hide Does, OnRoute, Inv, SlopOk, OnTime;
    if k == 0 {
      IdleOnRoute(c);
    } else {
      RunOnRoute(c, ms, steps, k - 1);
      var t, a := steps[k - 1].t, steps[k - 1].a;
      assert Does(c, ms[k - 1], t, a, ms[k]);
      DoesThread(c, ms[k - 1], t, a, ms[k]);
      StepOnRoute(c, ms[k - 1], t, a, ms[k]);
    }
  }

  lemma IdleOnRoute(c: Setting)
    ensures OnRoute(c, Idle)
  {
  }

  /** Where a freed block goes: in the step that ends a free, it joins the end of its slot's ring if frees are delayed,
      and otherwise the front of the free list of its own slot and bin. */
  lemma FreeLands(c: Setting, m: Machine, t: Tid, a: Action, m': Machine)
    requires Consistent(c, m) && Does(c, m, t, a, m') && t in m.pcs && t in m'.pcs && OnRoute(c, m.pcs[t])
    requires m.pcs[t].Retiring? || m.pcs[t].Queueing?
    ensures var h := m.pcs[t].h; h in m.heap.blk && h in m'.heap.blk && m'.pcs[t] == Idle
    ensures var h := m.pcs[t].h; var i := m.heap.blk[h].slot;
      c.useDelay ==> m'.heap.blk[h].own.Delayed? && Ring(m'.heap, i) == Ring(m.heap, i) + [h]
    ensures var h := m.pcs[t].h; var l := FreeList(m.heap.blk[h].slot, m.heap.blk[h].bin);
      !c.useDelay ==> m'.heap.blk[h].own.Avail? && ListAt(m'.heap.lists, l) == [h] + ListAt(m.heap.lists, l)
  {
    hide Consistent, Inv, SlopOk, Reachable, LinkFront, Furnished, P.GrowSize, L.BinFor, L.Servable, L.AllocSize, WantsMore;
    hide Attach, Quarantine, Does;
    EndsFree(c, m, t, a, m');
    Facts(c, m, t);
    var pc := m.pcs[t];
    ListThere(c, m, pc.i, pc.b) by { BinInRange(c, m, t); }
    Landed(m.heap, FreeList(pc.i, pc.b), pc.i, pc.h, pc.b);
  }

  lemma EndsFree(c: Setting, m: Machine, t: Tid, a: Action, m': Machine)
    requires Does(c, m, t, a, m') && t in m.pcs
    ensures m.pcs[t].Retiring? ==> PushesFree(c, m, t, m')
    ensures m.pcs[t].Queueing? ==> QueuesUp(c, m, t, m')
  {
    hide Attach, Detach, Quarantine, Unquarantine, CarveFrom, Roomy, Commit, Interleaving.Stamping, Resize, Ring;
    hide WantsMore, Furnished, FillsAt, Unmapped, L.BinFor, L.Servable, L.AllocSize;
  }

  lemma Landed(s: State, l: ListId, i: nat, h: Ptr, b: nat)
    requires l in s.lists && DelayRing(i) in s.lists && h in s.blk
    ensures var t := Attach(s, l, h, Avail); h in t.blk && t.blk[h].own.Avail? && ListAt(t.lists, l) == [h] + ListAt(s.lists, l)
    ensures var t := Quarantine(s, DelayRing(i), h, b); h in t.blk && t.blk[h].own.Delayed? && Ring(t, i) == Ring(s, i) + [h]
  {
  }

  lemma BinInRange(c: Setting, m: Machine, t: Tid)
    requires Consistent(c, m) && t in m.pcs && (m.pcs[t].Retiring? || m.pcs[t].Queueing?)
    ensures m.pcs[t].i < c.numSlots && m.pcs[t].b < MAX_ALLOC_POWER
  {
    hide Consistent, Inv, SlopOk, Reachable;
    Facts(c, m, t);
    BinRange(m.heap, m.pcs[t].h);
  }

  /** Without delayed frees no run ever changes a ring. */
  lemma {:induction false} RingsIdle(c: Setting, ms: seq<Machine>, steps: seq<Step>, k: nat, i: nat)
    requires IsThreadRun(c, ms, steps) && k <= |steps| && !c.useDelay
    ensures Ring(ms[k].heap, i) == Ring(ms[0].heap, i) && PutsOf(ms[k], i) == PutsOf(ms[0], i)
  {
    hide Does, Start, Ring, PutsOf;
    if k > 0 {
      RingsIdle(c, ms, steps, k - 1, i);
      RunOnRoute(c, ms, steps, k - 1);
      var t, a := steps[k - 1].t, steps[k - 1].a;
      assert Does(c, ms[k - 1], t, a, ms[k]);
      DoesThread(c, ms[k - 1], t, a, ms[k]);
      OffRing(c, ms[k - 1], t, a, ms[k]);
      RestRing(c, ms[k - 1], t, a, ms[k], i);
      StepPuts(c, ms[k - 1], t, a, ms[k]);
      SamePuts(ms[k - 1], ms[k], i);
    }
  }

  lemma SamePuts(m: Machine, m': Machine, i: nat)
    requires m'.puts == m.puts
    ensures PutsOf(m', i) == PutsOf(m, i)
  {
  }

  lemma OffRing(c: Setting, m: Machine, t: Tid, a: Action, m': Machine)
    requires Does(c, m, t, a, m') && t in m.pcs && OnRoute(c, m.pcs[t]) && !c.useDelay
    ensures !a.DrainGet? && !a.Queue?
  {
    hide Attach, Detach, Quarantine, Unquarantine, Ring;
  }

  // ---------------------------------------------------------------- free blocks in stock

  function Stock(m: Machine, i: nat, b: nat): nat {
    |ListAt(m.heap.lists, FreeList(i, b))|
  }

  /** Only taking a block shortens a free list, and only if there are enough. */
  lemma StepStock(c: Setting, m: Machine, t: Tid, a: Action, m': Machine, i: nat, b: nat)
    requires Does(c, m, t, a, m') && t in m.pcs
    ensures Stock(m', i, b) >= Stock(m, i, b) || (Stock(m', i, b) == Stock(m, i, b) - 1 >= 0 && a.Pop?)
    ensures Stock(m', i, b) < Stock(m, i, b) ==>
      m.pcs[t].Replenish? && m.pcs[t].i == i && m.pcs[t].b == b && !WantsMore(c, m.heap, i, b, m.pcs[t].again)
  {
    hide Does, WantsMore;
    if Gets(a) {
      GetStock(c, m, t, a, m', i, b);
    } else {
      PutStock(c, m, t, a, m', i, b);
    }
  }

  lemma GetStock(c: Setting, m: Machine, t: Tid, a: Action, m': Machine, i: nat, b: nat)
    requires Does(c, m, t, a, m') && t in m.pcs && Gets(a)
    ensures Stock(m', i, b) >= Stock(m, i, b) || (Stock(m', i, b) == Stock(m, i, b) - 1 >= 0 && a.Pop?)
    ensures Stock(m', i, b) < Stock(m, i, b) ==>
      m.pcs[t].Replenish? && m.pcs[t].i == i && m.pcs[t].b == b && !WantsMore(c, m.heap, i, b, m.pcs[t].again)
  {
    hide CallsFree, ChecksFree, ChecksPut, Stamps, LocksPut, PopsUsed, PushesFree, TestsRing, DrainsOne, PushesDrained;
    hide DrainsNoMore, QueuesUp, Writes;
    hide WantsMore, Furnished, FillsAt, Unmapped, L.BinFor, L.Servable, L.AllocSize, LinkFront, Unlink, P.GrowSize, CarveFrom;
    if a.Carve? { CarveLists(Roomy(m.heap, m.pcs[t].b, a.start), m.pcs[t].i, m.pcs[t].b); }
  }

  lemma PutStock(c: Setting, m: Machine, t: Tid, a: Action, m': Machine, i: nat, b: nat)
    requires Does(c, m, t, a, m') && t in m.pcs && !Gets(a)
    ensures Stock(m', i, b) >= Stock(m, i, b)
  {
    hide Asks, Carves, PushesNew, GivesUp, Pops, PushesUsed, Unlocks, Vets, Fills;
    hide WantsMore, Furnished, FillsAt, Unmapped, L.BinFor, L.Servable, L.AllocSize, LinkFront, Unlink, P.GrowSize, CarveFrom;
  }

  /** With threads too, a bin with the water marks of initialization never has fewer than 99 free blocks. */
  lemma {:induction false} InterleavedStock(c: Setting, ms: seq<Machine>, steps: seq<Step>, k: nat, i: nat, b: nat)
    requires IsThreadRun(c, ms, steps) && k <= |steps| && MarkOf(c, i, b) == Water(100, 200)
    requires Stock(ms[0], i, b) >= 99
    ensures Stock(ms[k], i, b) >= 99
  {
    hide Does, Start;
    if k > 0 {
      InterleavedStock(c, ms, steps, k - 1, i, b);
      assert Does(c, ms[k - 1], steps[k - 1].t, steps[k - 1].a, ms[k]);
      DoesThread(c, ms[k - 1], steps[k - 1].t, steps[k - 1].a, ms[k]);
      StepStock(c, ms[k - 1], steps[k - 1].t, steps[k - 1].a, ms[k], i, b);
    }
  }

  // ---------------------------------------------------------------- threads can always move

  /** One order in which `memalignInt` can leave its marks. */
  function Marked(m: Mem, h: Ptr, usr: Ptr, size: nat, mis: nat): Mem
    requires usr >= WORD_SIZE
  {
    var m1 := PutHdr(m, h, StampedHdr(HdrAt(m, h), usr, size, mis));
    PutWord(Memory.Fill(m1, usr + size, Min(mis, MAX_SLOP), MAGIC_SLOP), usr - WORD_SIZE, h)
  }

  lemma NotYetRewritten(m: Mem, h: Ptr, n: nat)
    requires IsHdr(m, h)
    ensures Rewritten(m, m, h, n, m[h].hdr)
  {
  }

  lemma MarkedFurnishes(m: Mem, h: Ptr, bin: nat, usr: Ptr, size: nat, mis: nat)
    requires IsHdr(m, h) && Mapped(m, h, Pow2(bin)) && Pow2(bin) >= PAGE_SIZE
    requires h + ELM_HDR_BYTES + WORD_SIZE <= usr && usr + size + mis == h + Pow2(bin)
    ensures Furnished(m, Marked(m, h, usr, size, mis), h, bin, usr, size, mis)
  {
    hide IsFilled, IsWord, Mapped, Rewritten, PutHdr, PutWord, Memory.Fill;
    var n, hdr := Pow2(bin), StampedHdr(m[h].hdr, usr, size, mis);
    NotYetRewritten(m, h, n);
    HdrWrite(m, m, h, n, m[h].hdr, hdr);
    var m1 := PutHdr(m, h, hdr);
    FillWrite(m, m1, h, n, hdr, usr + size, Min(mis, MAX_SLOP), MAGIC_SLOP);
    WordWrite(m, Memory.Fill(m1, usr + size, Min(mis, MAX_SLOP), MAGIC_SLOP), h, n, hdr, usr - WORD_SIZE, h);
  }

  lemma CanFill(c: Setting, m: Machine, t: Tid)
    requires Consistent(c, m) && t in m.pcs && m.pcs[t].Filling?
    ensures exists a, m' :: Does(c, m, t, a, m')
  {
    hide Consistent, Inv, SlopOk, Reachable, Furnished, IsHdr, Mapped, L.BinFor, L.Servable;
    Facts(c, m, t);
    NeverFaults(c, m, t);
    var s, h, req := m.heap, m.pcs[t].h, m.pcs[t].req;
    var bin := s.blk[h].bin;
    var end := h + Pow2(bin);
    L.LayoutFits(h, s.hdrSize, req.alignment, req.size, bin);
    Pow2Pages(bin);
    HeaderLeast(s);
    var mis := L.Misalignment(end, req.alignment, req.size);
    var usr := end - req.size - mis;
    var mem := Marked(s.mem, h, usr, req.size, mis);
    assert h in Hands(m.pcs[t]);
    MarkedFurnishes(s.mem, h, bin, usr, req.size, mis);
    var m' := m.(heap := Commit(s, h, mem, usr), pcs := m.pcs[t := Idle], hand := m.hand[h := Program]);
    assert Fills(c, m, t, mem, usr, m');
    assert Does(c, m, t, Fill(mem, usr), m');
  }

  lemma HeaderLeast(s: State)
    requires Inv(s)
    ensures s.hdrSize >= ELM_HDR_BYTES
  {
  }

  lemma CanPopUsed(c: Setting, m: Machine, t: Tid)
    requires Consistent(c, m) && t in m.pcs && m.pcs[t].Locked?
    ensures exists a, m' :: Does(c, m, t, a, m')
  {
    hide Consistent, UsableBlock, UsableList, Ready, Detach;
    NeverFaults(c, m, t);
    ListedHere(m, t);
    var pc := m.pcs[t];
    var l := UsedList(pc.i, pc.b);
    var k :| 0 <= k < |m.heap.lists[l]| && m.heap.lists[l][k] == pc.h;
    var m' := m.(heap := Detach(m.heap, l, k, pc.h),
                 pcs := m.pcs[t := if c.useDelay then Removed(pc.i, pc.b, pc.h) else Retiring(pc.i, pc.b, pc.h)]);
    assert PopsUsed(c, m, t, k, m');
    assert Does(c, m, t, PopUsed(k), m');
  }

  lemma ListedHere(m: Machine, t: Tid)
    requires t in m.pcs && m.pcs[t].Locked? && Touchable(m, t)
    ensures var l := UsedList(m.pcs[t].i, m.pcs[t].b); l in m.heap.lists && m.pcs[t].h in m.heap.lists[l]
  {
  }

  lemma CanReplenish(c: Setting, m: Machine, t: Tid)
    requires LocksOk(m) && Scheduled(c, m) && t in m.pcs && m.pcs[t].Replenish? && m.pcs[t].i < c.numSlots
    ensures exists a, m' :: Does(c, m, t, a, m')
  {
    hide Detach, CarveFrom, P.GrowSize;
    var s, pc := m.heap, m.pcs[t];
    assert SlotScheduled(c, m, pc.i);
    if !WantsMore(c, s, pc.i, pc.b, pc.again) {
      var h := First(ListAt(s.lists, FreeList(pc.i, pc.b)));
      var m' := m.(heap := Detach(s, FreeList(pc.i, pc.b), 0, h),
                   pcs := m.pcs[t := Popped(pc.i, pc.b, h, pc.req)],
                   hand := m.hand[h := Thread(t)]);
      assert Pops(c, m, t, m');
      assert Does(c, m, t, Pop, m');
    } else if Room(s) < Pow2(pc.b) + PAGE_SIZE {
      var m' := m.(pcs := m.pcs[t := Idle], locks := m.locks - {pc.i});
      assert GivesUp(c, m, t, m');
      assert Does(c, m, t, GiveUp, m');
    } else {
      var m' := m.(heap := CarveFrom(s, pc.i, pc.b),
                   pcs := m.pcs[t := Fresh(pc.i, pc.b, s.lo, pc.req)],
                   hand := m.hand[s.lo := Thread(t)]);
      assert Carves(c, m, t, NULL, m');
      assert Does(c, m, t, Carve(NULL), m');
    }
  }

  /** What thread t does next, where that is determined. */
  function NextAction(c: Setting, m: Machine, t: Tid): Action
    requires t in m.pcs
  {
    match m.pcs[t]
    case Fresh(_, _, _, _) => PushNew
    case Popped(_, _, _, _) => PushUsed
    case Listed(_, _, _, _) => Unlock
    case Vetting(_, _) => Vet
    case Called(_) => CheckFree
    case Entered(_) => CheckPut
    case Checked(_) => Stamp
    case Stamped(_) => LockPut
    case Removed(_, _, _) => TestRing
    case Draining(i, _, _) => if |Ring(m.heap, i)| > c.cap / 4 then DrainGet else DrainDone
    case Released(_, _, _, _, _) => PushDrained
    case Queueing(_, _, _) => Queue
    case Retiring(_, _, _) => PushFree
    case _ => Vet
  }

  lemma CanStep(c: Setting, m: Machine, t: Tid)
    requires t in m.pcs
    requires var pc := m.pcs[t]; !pc.Idle? && !pc.Replenish? && !pc.Filling? && !pc.Locked?
    requires m.pcs[t].Stamped? ==> HdrAt(m.heap.mem, m.pcs[t].h).slotNum !in m.locks
    ensures exists m' :: Does(c, m, t, NextAction(c, m, t), m')
  {
    hide Attach, Detach, Unquarantine, Quarantine, Stamping, Resize, Ring;
    var s, pc := m.heap, m.pcs[t];
    var l := m.locks;
    var e := HdrAt(s.mem, if pc.Stamped? then pc.h else NULL);
    var m' := match pc
      case Fresh(i, b, h, req) => m.(heap := Attach(s, FreeList(i, b), h, Avail),
                                     pcs := m.pcs[t := Replenish(i, b, req, true)],
                                     hand := m.hand - {h})
      case Popped(i, b, h, req) =>
        m.(heap := Resize(Attach(s, UsedList(i, b), h, Taken), h, req.size), pcs := m.pcs[t := Listed(i, b, h, req)])
      case Listed(i, b, h, req) => m.(pcs := m.pcs[t := Vetting(h, req)], locks := l - {i})
      case Vetting(h, req) => m.(pcs := m.pcs[t := Filling(h, req)])
      case Called(h) => m.(pcs := m.pcs[t := Entered(h)])
      case Entered(h) => m.(pcs := m.pcs[t := Checked(h)])
      case Checked(h) => m.(heap := Stamping(s, h), pcs := m.pcs[t := Stamped(h)])
      case Stamped(h) => m.(pcs := m.pcs[t := Locked(e.slotNum, e.binNum, h)], locks := l[e.slotNum := t])
      case Removed(i, b, h) => m.(pcs := m.pcs[t := if |Ring(s, i)| > c.cap / 2 then Draining(i, b, h) else Queueing(i, b, h)])
      case Draining(i, b, h) =>
        if |Ring(s, i)| <= c.cap / 4 then m.(pcs := m.pcs[t := Queueing(i, b, h)])
        else
          var g := First(Ring(s, i));
          var d := HdrAt(s.mem, g).binNum;
          m.(heap := Unquarantine(s, DelayRing(i), g, d),
             pcs := m.pcs[t := Released(i, b, h, g, d)],
             hand := m.hand[g := Thread(t)])
      case Released(i, b, h, g, d) => m.(heap := Attach(s, FreeList(i, d), g, Avail),
                                         pcs := m.pcs[t := Draining(i, b, h)],
                                         hand := m.hand - {g})
      case Queueing(i, b, h) => m.(puts := m.puts[i := PutsOf(m, i) + [h]],
                                   heap := Quarantine(s, DelayRing(i), h, b),
                                   pcs := m.pcs[t := Idle],
                                   locks := l - {i},
                                   hand := m.hand - {h})
      case Retiring(i, b, h) => m.(heap := Attach(s, FreeList(i, b), h, Avail),
                                   pcs := m.pcs[t := Idle],
                                   locks := l - {i},
                                   hand := m.hand - {h})
      case _ => m;
    assert Does(c, m, t, NextAction(c, m, t), m');
  }

  /** A thread inside the allocator can always take its next step, unless it waits for a slot's lock. */
  lemma CanMove(c: Setting, m: Machine, t: Tid)
    requires Consistent(c, m) && Scheduled(c, m) && t in m.pcs && !m.pcs[t].Idle?
    requires m.pcs[t].Stamped? ==> HdrAt(m.heap.mem, m.pcs[t].h).slotNum !in m.locks
    ensures exists a, m' :: Does(c, m, t, a, m')
  {
    hide Consistent, Scheduled, Does, LocksOk;
    match m.pcs[t]
    case Replenish(_, _, _, _) => LocksFacts(c, m); Facts(c, m, t); CanReplenish(c, m, t);
    case Filling(_, _) => CanFill(c, m, t);
    case Locked(_, _, _) => CanPopUsed(c, m, t);
    case _ => CanStep(c, m, t);
  }

  /** There is no deadlock: while any thread is inside the allocator, some thread inside it can move. */
  lemma NeverDeadlocked(c: Setting, m: Machine, t: Tid)
    requires Consistent(c, m) && Scheduled(c, m) && t in m.pcs && !m.pcs[t].Idle?
    ensures exists u, a, m' :: u in m.pcs && !m.pcs[u].Idle? && Does(c, m, u, a, m')
  {
    hide HeapGood, SlopOk, RingsOk, HandsOk, ThreadOk, Does, Scheduled;
    var u := t;
    if m.pcs[t].Stamped? {
      var i := HdrAt(m.heap.mem, m.pcs[t].h).slotNum;
      if i in m.locks {
        u := m.locks[i];
      }
    }
    CanMove(c, m, u);
  }

  // ---------------------------------------------------------------- calls end

  /** How many more times `replenishBin` will carve. */
  function CarvesLeft(c: Setting, s: State, i: nat, b: nat, again: bool): nat {
    if WantsMore(c, s, i, b, again) then Max(1, Short(c, s, i, b)) else 0
  }

  /** How far the free list is below its high-water mark. */
  function Short(c: Setting, s: State, i: nat, b: nat): nat {
    var n, high := |ListAt(s.lists, FreeList(i, b))|, MarkOf(c, i, b).high;
    if n < high then high - n else 0
  }

  /** A bound on how many more steps of its own a thread at pc needs to be back in the program. */
  function Rank(c: Setting, s: State, pc: Pc): nat {
    match pc
    case Idle => 0
    case Replenish(i, b, _, again) => 10 + 2 * CarvesLeft(c, s, i, b, again)
    case Fresh(i, b, _, _) => 11 + 2 * (if Short(c, s, i, b) > 0 then Short(c, s, i, b) - 1 else 0)
    case Popped(_, _, _, _) => 9
    case Listed(_, _, _, _) => 8
    case Vetting(_, _) => 7
    case Filling(_, _) => 6
    case Called(_) => c.cap + 11
    case Entered(_) => c.cap + 10
    case Checked(_) => c.cap + 9
    case Stamped(_) => c.cap + 8
    case Locked(i, _, _) => 5 + 2 * |Ring(s, i)|
    case Removed(i, _, _) => 4 + 2 * |Ring(s, i)|
    case Draining(i, _, _) => 3 + 2 * |Ring(s, i)|
    case Released(i, _, _, _, _) => 4 + 2 * |Ring(s, i)|
    case Queueing(_, _, _) => 2
    case Retiring(_, _, _) => 1
  }

  lemma RankCarve(c: Setting, m: Machine, t: Tid, start: Ptr, m': Machine)
    requires t in m.pcs && t in m'.pcs && Carves(c, m, t, start, m')
    ensures Rank(c, m'.heap, m'.pcs[t]) < Rank(c, m.heap, m.pcs[t])
  {
    hide CarveFrom, P.GrowSize;
    var pc := m.pcs[t];
    CarveLists(Roomy(m.heap, pc.b, start), pc.i, pc.b);
    assert m'.heap.lists == m.heap.lists;
  }

  lemma RankPushNew(c: Setting, m: Machine, t: Tid, m': Machine)
    requires t in m.pcs && t in m'.pcs && PushesNew(c, m, t, m')
    ensures Rank(c, m'.heap, m'.pcs[t]) < Rank(c, m.heap, m.pcs[t])
  {
    hide LinkFront;
    var pc := m.pcs[t];
    assert |ListAt(m'.heap.lists, FreeList(pc.i, pc.b))| == |ListAt(m.heap.lists, FreeList(pc.i, pc.b))| + 1;
  }

  lemma RankLockPut(c: Setting, m: Machine, t: Tid, m': Machine)
    requires t in m.pcs && t in m'.pcs && LocksPut(c, m, t, m') && c.cap % 4 == 0
    requires |Ring(m.heap, HdrAt(m.heap.mem, m.pcs[t].h).slotNum)| <= c.cap / 2 + 1
    ensures Rank(c, m'.heap, m'.pcs[t]) < Rank(c, m.heap, m.pcs[t])
  {
    hide Ring;
  }

  /** The other steps inside a critical section leave the ring alone, except for the one that shortens it. */
  lemma RankInside(c: Setting, m: Machine, t: Tid, a: Action, m': Machine)
    requires t in m.pcs && t in m'.pcs && Does(c, m, t, a, m')
    requires a.PopUsed? || a.TestRing? || a.PushDrained? || a.DrainDone?
    ensures Rank(c, m'.heap, m'.pcs[t]) < Rank(c, m.heap, m.pcs[t])
  {
    hide Attach, Detach, Ring;
    RestRing(c, m, t, a, m', m.pcs[t].i);
  }

  lemma RankDrainGet(c: Setting, m: Machine, t: Tid, m': Machine)
    requires t in m.pcs && t in m'.pcs && DrainsOne(c, m, t, m') && DelayRing(m.pcs[t].i) in m.heap.lists
    ensures Rank(c, m'.heap, m'.pcs[t]) < Rank(c, m.heap, m.pcs[t])
  {
    assert |Ring(m'.heap, m.pcs[t].i)| == |Ring(m.heap, m.pcs[t].i)| - 1;
  }

  lemma RankRest(c: Setting, m: Machine, t: Tid, a: Action, m': Machine)
    requires t in m.pcs && t in m'.pcs && Does(c, m, t, a, m') && !m.pcs[t].Idle?
    requires !a.Carve? && !a.PushNew? && !a.LockPut? && !a.PopUsed? && !a.TestRing? && !a.PushDrained? && !a.DrainDone?
    requires !a.DrainGet?
    ensures Rank(c, m'.heap, m'.pcs[t]) < Rank(c, m.heap, m.pcs[t])
  {
    hide Attach, Detach, Quarantine, Commit, Interleaving.Stamping, Resize, Ring, WantsMore, Short, Furnished;
  }

  /** Each step a thread takes inside the allocator brings it nearer to the program. */
  lemma OwnRank(c: Setting, m: Machine, t: Tid, a: Action, m': Machine)
    requires Consistent(c, m) && Does(c, m, t, a, m') && t in m.pcs && t in m'.pcs && !m.pcs[t].Idle?
    ensures Rank(c, m'.heap, m'.pcs[t]) < Rank(c, m.heap, m.pcs[t])
  {
    hide Consistent, Rank, Ring;
    hide Asks, Carves, PushesNew, GivesUp, Pops, PushesUsed, Unlocks, Vets, Fills, CallsFree, ChecksFree, ChecksPut;
    hide Stamps, LocksPut, PopsUsed, PushesFree, TestsRing, DrainsOne, PushesDrained, DrainsNoMore, QueuesUp, Writes;
    match a
    case Carve(start) => RankCarve(c, m, t, start, m');
    case PushNew => RankPushNew(c, m, t, m');
    case LockPut =>
      WaitsForLock(c, m, t, m');
      LocksFacts(c, m);
      SlotOfHeld(c, m, t);
      Facts(c, m, t);
      RankLockPut(c, m, t, m');
    case PopUsed(_) => RankInside(c, m, t, a, m');
    case TestRing => RankInside(c, m, t, a, m');
    case PushDrained => RankInside(c, m, t, a, m');
    case DrainDone => RankInside(c, m, t, a, m');
    case DrainGet => IsDraining(c, m, t, m'); RingThere(c, m, t); RankDrainGet(c, m, t, m');
    case _ => RankRest(c, m, t, a, m');
  }

  lemma WaitsForLock(c: Setting, m: Machine, t: Tid, m': Machine)
    requires t in m.pcs && LocksPut(c, m, t, m')
    ensures m.pcs[t].Stamped?
  {
  }

  lemma IsDraining(c: Setting, m: Machine, t: Tid, m': Machine)
    requires t in m.pcs && DrainsOne(c, m, t, m')
    ensures m.pcs[t].Draining?
  {
  }

  lemma SlotOfHeld(c: Setting, m: Machine, t: Tid)
    requires Consistent(c, m) && t in m.pcs && m.pcs[t].Stamped?
    ensures HdrAt(m.heap.mem, m.pcs[t].h).slotNum < c.numSlots
  {
    hide Consistent, Inv, SlopOk, Reachable, SoundAt;
    Facts(c, m, t);
    BlockReady(m.heap, m.pcs[t].h);
    SlotThere(c, m, m.pcs[t].h);
  }

  lemma RingThere(c: Setting, m: Machine, t: Tid)
    requires Consistent(c, m) && t in m.pcs && m.pcs[t].Draining?
    ensures DelayRing(m.pcs[t].i) in m.heap.lists
  {
    hide Consistent, Inv, SlopOk, Reachable;
    Facts(c, m, t);
    ListThere(c, m, m.pcs[t].i, MIN_BIN);
  }

  /** No step of another thread takes it further away. */
  lemma OthersRank(c: Setting, m: Machine, t: Tid, a: Action, m': Machine, u: Tid)
    requires Consistent(c, m) && Does(c, m, t, a, m') && t in m.pcs && u in m.pcs && u != t
    ensures u in m'.pcs && m'.pcs[u] == m.pcs[u] && Rank(c, m'.heap, m.pcs[u]) == Rank(c, m.heap, m.pcs[u])
  {
    hide Consistent, Does, Locks;
    StepLocal(c, m, t, a, m');
    LocksFacts(c, m);
    var pc := m.pcs[u];
    if InSlot(pc) >= 0 {
      assert InSlot(m.pcs[t]) != InSlot(pc);
      assert Ring(m'.heap, InSlot(pc)) == Ring(m.heap, InSlot(pc));
      assert forall b: nat :: ListAt(m'.heap.lists, FreeList(InSlot(pc), b)) == ListAt(m.heap.lists, FreeList(InSlot(pc), b));
    }
  }

  /** The steps thread t takes among the first k. */
  function StepsOf(steps: seq<Step>, t: Tid, k: nat): nat
    requires k <= |steps|
  {
    if k == 0 then 0 else StepsOf(steps, t, k - 1) + (if steps[k - 1].t == t then 1 else 0)
  }

  /** In every interleaved run a call ends after a bounded number of its own steps, whatever the other threads
      do meanwhile: from any point j, as long as the thread stays inside the allocator, the steps it has taken
      since and the bound on those still to come add up to no more than the bound at j. */
  lemma {:induction false} CallsEnd(c: Setting, ms: seq<Machine>, steps: seq<Step>, t: Tid, j: nat, k: nat)
    requires IsThreadRun(c, ms, steps) && j <= k <= |steps| && t in ms[j].pcs
    requires forall i | j <= i < k :: t in ms[i].pcs ==> !ms[i].pcs[t].Idle?
    ensures t in ms[k].pcs
    ensures StepsOf(steps, t, k) - StepsOf(steps, t, j) + Rank(c, ms[k].heap, ms[k].pcs[t]) <= Rank(c, ms[j].heap, ms[j].pcs[t])
    decreases k
  {
    hide Consistent, Start, Does, Rank;
    if j < k {
      CallsEnd(c, ms, steps, t, j, k - 1);
      RunConsistent(c, ms, steps, k - 1);
      var m, u, a := ms[k - 1], steps[k - 1].t, steps[k - 1].a;
      assert Does(c, m, u, a, ms[k]);
      DoesThread(c, m, u, a, ms[k]);
      StepLocal(c, m, u, a, ms[k]);
      if u == t {
        OwnRank(c, m, t, a, ms[k]);
      } else {
        OthersRank(c, m, u, a, ms[k], t);
      }
    }
  }

  /** The bound is small where calls begin: a free takes at most N + 11 steps, an allocation 10 and two for each
      block it may have to carve. */
  lemma CallsStart(c: Setting, m: Machine, t: Tid, a: Action, m': Machine)
    requires Does(c, m, t, a, m') && t in m.pcs && m.pcs[t].Idle? && t in m'.pcs
    ensures Rank(c, m'.heap, m'.pcs[t]) <= match a
      case Ask(i, req) => 10 + 2 * Max(1, MarkOf(c, i, m'.pcs[t].b).high)
      case CallFree(_) => c.cap + 11
      case _ => 0
  {
    hide L.BinFor, L.Servable, Furnished;
  }
}
