// Runs of the allocator: the effects of successive calls, and what any number of them adds up to.
module Runs {
  import opened Memory
  import opened Heap
  import opened Evolve
  import opened UserData
  import opened Calls

  /** What one call did to block h. */
  datatype Effect =
    | Nothing
    | Gain(h: Ptr, p: Ptr, cs: seq<Cell>)
    | Lose(h: Ptr, p: Ptr, own: Owner)
    | Store(h: Ptr, p: Ptr, cs: seq<Cell>)

  ghost predicate Behind(m: Mem, p: Ptr, n: nat, cs: seq<Cell>) {
    Mapped(m, p, n) && Cells(m, p, n) == cs
  }

  /** The effect in terms of the heap alone: which block the call was about, what became of its record, and
      which bytes it wrote.  Nothing is said here of what the program sees. */
  ghost predicate Takes(s: State, e: Effect, t: State) {
    match e
    case Nothing => Evolves(s, t, NULL)
    case Gain(h, p, cs) =>
      && Evolves(s, t, h) && (h in s.blk ==> s.blk[h].own.Avail?)
      && LiveAt(t, p, h) && Behind(t.mem, p, t.blk[h].size, cs) && SlopAt(t.mem, h, t.blk[h])
    case Lose(h, p, own) =>
      && Evolves(s, t, h) && LiveAt(s, p, h)
      && h in t.blk && t.blk[h] == s.blk[h].(own := own) && !own.Used?
    case Store(h, p, cs) =>
      && LiveAt(s, p, h) && t == s.(mem := t.mem)
      && AgreeOutside(s.mem, t.mem, p, s.blk[h].size) && Behind(t.mem, p, s.blk[h].size, cs)
  }

  // ---------------------------------------------------------------- the calls take these steps

  lemma StillTakes(s: State)
    ensures Takes(s, Nothing, s)
  {
    EvolvesRefl(s);
  }

  lemma QuietTakes(s: State, t: State)
    requires Quiet(s, t)
    ensures Takes(s, Nothing, t)
  {
  }

  lemma AllocatedTakes(s: State, t: State, h: Ptr, p: Ptr, alignment: nat, size: nat)
    requires Allocated(s, t, h, p, alignment, size)
    ensures Mapped(t.mem, p, size) && Takes(s, Gain(h, p, Cells(t.mem, p, size)), t)
  {
    hide Good, Evolves, SlopAt, SlopOk;
  }

  lemma FreedTakes(s: State, t: State, h: Ptr, p: Ptr, own: Owner)
    requires Freed(s, t, h, own) && s.blk[h].usr == p && !own.Used?
    ensures Takes(s, Lose(h, p, own), t)
  {
    hide Good, Evolves, SlopOk;
  }

  lemma StoreTakes(s: State, m': Mem, h: Ptr)
    requires Inv(s) && h in s.blk && s.blk[h].own.Used? && AgreeOutside(s.mem, m', s.blk[h].usr, s.blk[h].size)
    ensures Mapped(m', s.blk[h].usr, s.blk[h].size)
    ensures Takes(s, Store(h, s.blk[h].usr, Cells(m', s.blk[h].usr, s.blk[h].size)), s.(mem := m'))
  {
    BlockFacts(s, h);
  }

  /** Writing into an allocation just gained is gaining it with other bytes. */
  lemma GainStore(s: State, t: State, u: State, h: Ptr, p: Ptr, cs: seq<Cell>, cs': seq<Cell>)
    requires Inv(s) && Inv(t) && Takes(s, Gain(h, p, cs), t) && Takes(t, Store(h, p, cs'), u)
    ensures Takes(s, Gain(h, p, cs'), u)
  {
    hide Inv, Evolves, SlopAt;
    StoreEvolves(t, u, h, p, cs');
    EvolvesTrans(s, t, u, h);
  }

  lemma StoreEvolves(t: State, u: State, h: Ptr, p: Ptr, cs: seq<Cell>)
    requires Inv(t) && Takes(t, Store(h, p, cs), u)
    ensures Evolves(t, u, h)
    ensures SlopAt(t.mem, h, t.blk[h]) ==> SlopAt(u.mem, h, u.blk[h])
  {
    BlockFacts(t, h);
    InvGood(t);
    assert t.blk[h := t.blk[h]] == t.blk;
    RewriteEvolves(t, u.mem, h, t.blk[h]);
  }

  // ---------------------------------------------------------------- what the program sees of one step

  type Model = map<Ptr, seq<Cell>>

  /** The plain map a program has in mind. */
  function Apply(m: Model, e: Effect): Model {
    match e
    case Nothing => m
    case Gain(_, p, cs) => m[p := cs]
    case Lose(_, p, _) => m - {p}
    case Store(_, p, cs) => m[p := cs]
  }

  /** Fresh pointers are fresh, freed and written pointers are live. */
  predicate Sensible(m: Model, e: Effect) {
    match e
    case Nothing => true
    case Gain(_, p, _) => p != NULL && p !in m
    case Lose(_, p, _) => p in m
    case Store(_, p, cs) => p in m && |m[p]| == |cs|
  }

  /** Each step of the heap is one step of the plain map, and intact slop stays intact. */
  lemma StepRefines(s: State, e: Effect, t: State)
    requires Inv(s) && Inv(t) && Takes(s, e, t)
    ensures Good(s) && Good(t) && Client(s).Keys == LivePtrs(s)
    ensures Client(t) == Apply(Client(s), e) && Sensible(Client(s), e)
    ensures SlopOk(s) ==> SlopOk(t)
  {
    hide Inv, Good, Evolves, SlopOk, SlopAt, Client, LivePtrs;
    InvGood(s);
    InvGood(t);
    GoodNow(s);
    GoodNow(t);
    ClientKeys(s);
    if SlopOk(s) { StepSlop(s, e, t); }
    match e
    case Nothing => QuietNow(s, t);
    case Gain(h, p, cs) => GainRefines(s, t, h, p, cs);
    case Lose(h, p, own) => ClientLoses(s, t, h);
    case Store(h, p, cs) => StoreRefines(s, t, h, p, cs);
  }

  lemma GainRefines(s: State, t: State, h: Ptr, p: Ptr, cs: seq<Cell>)
    requires Good(s) && Good(t) && Takes(s, Gain(h, p, cs), t)
    ensures p != NULL && p !in Client(s) && Client(t) == Client(s)[p := cs]
  {
    hide Good, Evolves, SlopAt, Client;
    ClientGains(s, t, h);
  }

  lemma GoodNow(s: State)
    requires Inv(s)
    ensures Good(s)
  {
    InvGood(s);
  }

  lemma ClientKeys(s: State)
    requires Good(s)
    ensures Client(s).Keys == LivePtrs(s)
  {
    hide Sound, Apart;
  }

  lemma StoreRefines(s: State, t: State, h: Ptr, p: Ptr, cs: seq<Cell>)
    requires Inv(s) && Inv(t) && Good(s) && Good(t) && Takes(s, Store(h, p, cs), t)
    ensures p in Client(s) && |Client(s)[p]| == |cs| && Client(t) == Client(s)[p := cs]
  {
    hide Inv, Good, Evolves, SlopAt, Client;
    StoreEvolves(s, t, h, p, cs);
    StoreClient(s, t, h);
    BystanderContents(s, p, h);
  }

  lemma StepSlop(s: State, e: Effect, t: State)
    requires Inv(s) && Inv(t) && Takes(s, e, t) && SlopOk(s)
    ensures SlopOk(t)
  {
    hide Inv, Evolves, SlopOk, SlopAt;
    ZoneFacts(t);
    if e.Store? {
      StoreEvolves(s, t, e.h, e.p, e.cs);
      SlopAtOf(s, e.h);
    }
    SlopKept(s, t, if e.Nothing? then NULL else e.h);
  }

  // ---------------------------------------------------------------- whole runs

  ghost predicate IsRun(states: seq<State>, effects: seq<Effect>) {
    && |states| == |effects| + 1
    && (forall i | 0 <= i < |states| :: Inv(states[i]) && Settled(states[i].blk, NULL))
    && forall i | 0 <= i < |effects| :: Takes(states[i], effects[i], states[i + 1])
  }

  function Replay(m: Model, effects: seq<Effect>): Model {
    if effects == [] then m else Apply(Replay(m, effects[..|effects| - 1]), effects[|effects| - 1])
  }

  lemma RunPrefix(states: seq<State>, effects: seq<Effect>)
    requires IsRun(states, effects) && effects != []
    ensures IsRun(states[..|effects|], effects[..|effects| - 1])
  {
    hide Inv, Settled, Takes;
    var n := |effects| - 1;
    forall i | 0 <= i < n ensures Takes(states[..n + 1][i], effects[..n][i], states[..n + 1][i + 1]) {
      assert Takes(states[i], effects[i], states[i + 1]);
    }
  }

  /** Every run refines the plain map: at its end the program sees exactly what replaying the effects on what
      it saw at the start gives, and the slop bytes are intact if they were at the start. */
  lemma {:induction false} RunRefines(states: seq<State>, effects: seq<Effect>)
    requires IsRun(states, effects)
    ensures Good(states[0]) && Good(states[|effects|])
    ensures Client(states[|effects|]) == Replay(Client(states[0]), effects)
    ensures SlopOk(states[0]) ==> SlopOk(states[|effects|])
  {
    hide Inv, Good, Settled, Takes, Client, SlopOk;
    GoodNow(states[0]);
    if effects != [] {
      var n := |effects| - 1;
      RunPrefix(states, effects);
      RunRefines(states[..n + 1], effects[..n]);
      assert Takes(states[n], effects[n], states[n + 1]);
      StepRefines(states[n], effects[n], states[n + 1]);
    }
  }

  /** Over any run in which the program writes only inside its allocations, the slop check never fires. */
  lemma SlopNeverFires(states: seq<State>, effects: seq<Effect>, p: Ptr, h: Ptr)
    requires IsRun(states, effects) && SlopOk(states[0]) && LiveAt(states[|effects|], p, h)
    ensures FreeVerdict(states[|effects|], h).Frees?
  {
    hide Inv, Settled, Takes;
    RunRefines(states, effects);
  }

  // ---------------------------------------------------------------- freeing twice

  /** The last effect that handed block h out or took it back, if there is one. */
  function LastMove(effects: seq<Effect>, h: Ptr): Effect {
    if effects == [] then Nothing
    else
      var e := effects[|effects| - 1];
      if (e.Gain? || e.Lose?) && e.h == h then e else LastMove(effects[..|effects| - 1], h)
  }

  lemma MoveStep(s: State, e: Effect, t: State, p: Ptr, h: Ptr)
    requires Inv(s) && Inv(t) && Takes(s, e, t) && Issued(s, p, h)
    requires e.Gain? && e.h == h ==> e.p == p
    ensures Issued(t, p, h)
    ensures t.blk[h].own.Used? <==>
      (if (e.Gain? || e.Lose?) && e.h == h then e.Gain? else s.blk[h].own.Used?)
  {
    hide Inv, SlopAt, Behind, AgreeOutside;
    ZoneFacts(s);
    var g := if e.Nothing? then NULL else e.h;
    assert !e.Store? && g != h ==> KeptAt(s.mem, t.mem, h, s.blk[h], t.blk[h]);
  }

  /** A second free of p succeeds exactly if, since the first, the last thing that happened to its block was
      that it was handed out again as p.  (A block handed out again under another pointer is excluded: the
      word before p is then anybody's.) */
  lemma {:induction false} SecondFree(states: seq<State>, effects: seq<Effect>, p: Ptr, h: Ptr)
    requires IsRun(states, effects) && SlopOk(states[0])
    requires Issued(states[0], p, h) && !states[0].blk[h].own.Used?
    requires forall i | 0 <= i < |effects| && effects[i].Gain? && effects[i].h == h :: effects[i].p == p
    ensures Issued(states[|effects|], p, h)
    ensures FreeVerdict(states[|effects|], h).Frees? <==> LastMove(effects, h).Gain?
  {
    hide Inv, Settled, Takes, SlopAt, SlopOk;
    OwnedSince(states, effects, p, h);
    RunRefines(states, effects);
    if states[|effects|].blk[h].own.Used? {
      SlopAtOf(states[|effects|], h);
    }
  }

  lemma {:induction false} OwnedSince(states: seq<State>, effects: seq<Effect>, p: Ptr, h: Ptr)
    requires IsRun(states, effects) && Issued(states[0], p, h) && !states[0].blk[h].own.Used?
    requires forall i | 0 <= i < |effects| && effects[i].Gain? && effects[i].h == h :: effects[i].p == p
    ensures Issued(states[|effects|], p, h)
    ensures states[|effects|].blk[h].own.Used? <==> LastMove(effects, h).Gain?
  {
    hide Inv, Settled, Takes;
    if effects != [] {
      var n := |effects| - 1;
      RunPrefix(states, effects);
      OwnedSince(states[..n + 1], effects[..n], p, h);
      assert Takes(states[n], effects[n], states[n + 1]);
      MoveStep(states[n], effects[n], states[n + 1], p, h);
    }
  }

  /** Until the block is handed out again the second free is trapped: it faults while the block is in
      quarantine, and aborts once it is back on a free list. */
  lemma DoubleFreeTrapped(states: seq<State>, effects: seq<Effect>, p: Ptr, h: Ptr)
    requires IsRun(states, effects) && Issued(states[0], p, h) && !states[0].blk[h].own.Used?
    requires forall i | 0 <= i < |effects| && effects[i].Gain? :: effects[i].h != h
    ensures Issued(states[|effects|], p, h)
    ensures FreeVerdict(states[|effects|], h) == if states[|effects|].blk[h].own.Delayed? then Faults else Aborts
  {
    hide Inv, Settled, Takes, SlopAt;
    OwnedSince(states, effects, p, h);
    NeverGained(effects, h);
  }

  lemma {:induction false} NeverGained(effects: seq<Effect>, h: Ptr)
    requires forall i | 0 <= i < |effects| && effects[i].Gain? :: effects[i].h != h
    ensures !LastMove(effects, h).Gain?
  {
    if effects != [] {
      NeverGained(effects[..|effects| - 1], h);
    }
  }

  /** One step is enough: once its block is handed out again as p, the stale p is freed without complaint. */
  lemma ReissueUntraps(s: State, p: Ptr, h: Ptr, cs: seq<Cell>, t: State)
    requires Issued(s, p, h) && Takes(s, Gain(h, p, cs), t)
    ensures FreeVerdict(s, h).Aborts? && Issued(t, p, h) && FreeVerdict(t, h).Frees?
  {
    hide Evolves, SlopAt, Behind;
  }
}
