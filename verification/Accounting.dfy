// What the counters of one slot mean, in terms of everything the slot ever did.
module Accounting {
  import opened Bits

  /** One trip through `getBuf` or `putBuf`: the bin used, the size the user asked for, and its size class. */
  datatype Event = Get(bin: nat, size: nat, cls: nat) | Put(bin: nat, size: nat, cls: nat)

  type Log = seq<Event>

  function Last(log: Log): Event
    requires log != []
  {
    log[|log| - 1]
  }

  function Front(log: Log): Log
    requires log != []
  {
    log[..|log| - 1]
  }

  function Gets(log: Log, b: nat): nat {
    if log == [] then 0 else Gets(Front(log), b) + (if Last(log).Get? && Last(log).bin == b then 1 else 0)
  }

  function Puts(log: Log, b: nat): nat {
    if log == [] then 0 else Puts(Front(log), b) + (if Last(log).Put? && Last(log).bin == b then 1 else 0)
  }

  function GotBytes(log: Log): nat {
    if log == [] then 0 else GotBytes(Front(log)) + (if Last(log).Get? then Last(log).size else 0)
  }

  function PutBytes(log: Log): nat {
    if log == [] then 0 else PutBytes(Front(log)) + (if Last(log).Put? then Last(log).size else 0)
  }

  function Net(log: Log): int {
    GotBytes(log) - PutBytes(log)
  }

  /** Bytes requested minus bytes freed in one bin. */
  function NetInBin(log: Log, b: nat): int {
    if log == [] then 0
    else NetInBin(Front(log), b) + (if Last(log).bin != b then 0 else if Last(log).Get? then Last(log).size else 0 - Last(log).size)
  }

  function ClassGets(log: Log, k: nat): nat {
    if log == [] then 0 else ClassGets(Front(log), k) + (if Last(log).Get? && Last(log).cls == k then 1 else 0)
  }

  function ClassPuts(log: Log, k: nat): nat {
    if log == [] then 0 else ClassPuts(Front(log), k) + (if Last(log).Put? && Last(log).cls == k then 1 else 0)
  }

  /** Each request goes to a bin that covers it, and both its bin and its size class are in range. */
  ghost predicate Sized(log: Log, bins: nat) {
    forall e | e in log :: e.bin < bins && e.size <= Pow2(e.cls) && e.cls <= e.bin
  }

  // ---------------------------------------------------------------- high-water marks

  /** The high-water mark after a run: `HWMUsrBytes` is only recomputed by `getBuf`. */
  function HighWater(log: Log): int {
    if log == [] then 0
    else if Last(log).Get? then Max(HighWater(Front(log)), Net(log))
    else HighWater(Front(log))
  }

  /** It is nevertheless the maximum of requested minus freed bytes over the whole history. */
  lemma {:induction false} HighWaterIsMaximum(log: Log)
    ensures forall i | 0 <= i <= |log| :: Net(log[..i]) <= HighWater(log)
    ensures exists i | 0 <= i <= |log| :: Net(log[..i]) == HighWater(log)
  {
    if log == [] {
      assert log[..0] == [] && Net(log[..0]) == HighWater(log);
    } else {
      var f := Front(log);
      HighWaterIsMaximum(f);
      assert log[..|log|] == log;
      forall i | 0 <= i <= |log| ensures Net(log[..i]) <= HighWater(log) {
        if i < |log| {
          assert log[..i] == f[..i];
        } else {
          assert f[..|f|] == f;
        }
      }
      if HighWater(log) == HighWater(f) {
        var i :| 0 <= i <= |f| && Net(f[..i]) == HighWater(f);
        assert log[..i] == f[..i];
      } else {
        assert Net(log[..|log|]) == HighWater(log);
      }
    }
  }

  datatype Dumps = Dumps(last: int, count: nat)

  /** The dump bookkeeping of `getBuf`: the last mark dumped at, and how often that happened. */
  function DumpState(log: Log, interval: nat): Dumps {
    if log == [] then Dumps(0, 0)
    else
      var d := DumpState(Front(log), interval);
      if Last(log).Get? && HighWater(log) > d.last + interval then Dumps(HighWater(log), d.count + 1) else d
  }

  /** Dumps are spaced by more than the interval, and the mark is never further ahead than that. */
  lemma {:induction false} DumpSpacing(log: Log, interval: nat)
    ensures var d := DumpState(log, interval);
      d.count * (interval + 1) <= d.last <= HighWater(log) <= d.last + interval
  {
    if log != [] {
      DumpSpacing(Front(log), interval);
      var d := DumpState(Front(log), interval);
      assert (d.count + 1) * (interval + 1) == d.count * (interval + 1) + (interval + 1);
    }
  }

  /** The documentation promises a dump whenever the mark has grown by the interval or more.  The code keeps
      that promise for an allocation exactly if the growth is not the interval itself. */
  lemma DumpPromise(log: Log, e: Event, interval: nat)
    requires e.Get?
    ensures var d := DumpState(log, interval); var growth := HighWater(log + [e]) - d.last;
      var dumped := DumpState(log + [e], interval).count == d.count + 1;
      && (dumped <==> growth > interval)
      && (!dumped ==> DumpState(log + [e], interval) == d)
      && ((dumped <==> growth >= interval) <==> growth != interval)
  {
    assert Front(log + [e]) == log && Last(log + [e]) == e;
  }

  /** It is broken by the very first allocation if that is for exactly the interval. */
  lemma DumpMissed(bin: nat, cls: nat, interval: nat)
    ensures var log := [Get(bin, interval, cls)]; HighWater(log) == interval && DumpState(log, interval).count == 0
  {
    var log := [Get(bin, interval, cls)];
    assert Front(log) == [] && GotBytes(log) == interval && PutBytes(log) == 0;
  }

  // ---------------------------------------------------------------- report totals

  /** The sum over bins i < n of gets(i) * 2^i, as the exit report adds it up. */
  function BinBytes(log: Log, n: nat): nat {
    if n == 0 then 0 else BinBytes(log, n - 1) + Gets(log, n - 1) * Pow2(n - 1)
  }

  function BinBytesGuarded(log: Log, n: nat, page: nat): nat {
    if n == 0 then 0 else BinBytesGuarded(log, n - 1, page) + Gets(log, n - 1) * (Pow2(n - 1) + page)
  }

  function ClassBytes(log: Log, n: nat): nat {
    if n == 0 then 0 else ClassBytes(log, n - 1) + ClassGets(log, n - 1) * Pow2(n - 1)
  }

  function GetCount(log: Log, n: nat): nat {
    if n == 0 then 0 else GetCount(log, n - 1) + Gets(log, n - 1)
  }

  function ClassCount(log: Log, n: nat): nat {
    if n == 0 then 0 else ClassCount(log, n - 1) + ClassGets(log, n - 1)
  }

  function NetSum(log: Log, n: nat): int {
    if n == 0 then 0 else NetSum(log, n - 1) + NetInBin(log, n - 1)
  }

  lemma {:induction false} EmptyTotals(n: nat, page: nat)
    ensures BinBytes([], n) == 0 && BinBytesGuarded([], n, page) == 0 && ClassBytes([], n) == 0
    ensures GetCount([], n) == 0 && ClassCount([], n) == 0 && NetSum([], n) == 0
  {
    if n != 0 { EmptyTotals(n - 1, page); }
  }

  /** What one more event adds to each total taken over the first n bins. */
  lemma {:induction false} BinStep(log: Log, n: nat, page: nat)
    requires log != []
    ensures var e := Last(log); var f := Front(log);
      var hit := e.Get? && e.bin < n;
      && BinBytes(log, n) == BinBytes(f, n) + (if hit then Pow2(e.bin) else 0)
      && BinBytesGuarded(log, n, page) == BinBytesGuarded(f, n, page) + (if hit then Pow2(e.bin) + page else 0)
      && GetCount(log, n) == GetCount(f, n) + (if hit then 1 else 0)
  {
    if n != 0 {
      hide Pow2;
      BinStep(log, n - 1, page);
      var g, p := Gets(Front(log), n - 1), Pow2(n - 1);
      MulStep(g, p);
      MulStep(g, p + page);
    }
  }

  lemma {:induction false} ClassStep(log: Log, n: nat)
    requires log != []
    ensures var e := Last(log); var f := Front(log);
      var hit := e.Get? && e.cls < n;
      && ClassBytes(log, n) == ClassBytes(f, n) + (if hit then Pow2(e.cls) else 0)
      && ClassCount(log, n) == ClassCount(f, n) + (if hit then 1 else 0)
  {
    if n != 0 {
      hide Pow2;
      ClassStep(log, n - 1);
      MulStep(ClassGets(Front(log), n - 1), Pow2(n - 1));
    }
  }

  lemma {:induction false} NetStep(log: Log, n: nat)
    requires log != []
    ensures var e := Last(log);
      NetSum(log, n) == NetSum(Front(log), n) + (if e.bin >= n then 0 else if e.Get? then e.size else 0 - e.size)
  {
    if n != 0 { NetStep(log, n - 1); }
  }

  lemma SizedFront(log: Log, n: nat)
    requires log != [] && Sized(log, n)
    ensures Sized(Front(log), n)
    ensures var e := Last(log); e.bin < n && e.size <= Pow2(e.cls) <= Pow2(e.bin) && e.cls < n
  {
    assert Last(log) in log;
    Pow2Mono(Last(log).cls, Last(log).bin);
  }

  /** requested <= power-of-two bytes <= bin bytes <= bin bytes with guards, and the two histograms count alike. */
  lemma {:induction false} EfficiencyOrder(log: Log, n: nat, page: nat)
    requires Sized(log, n)
    ensures GotBytes(log) <= ClassBytes(log, n) <= BinBytes(log, n) <= BinBytesGuarded(log, n, page)
    ensures ClassCount(log, n) == GetCount(log, n) <= ClassBytes(log, n)
  {
    if log == [] {
      EmptyTotals(n, page);
    } else {
      SizedFront(log, n);
      EfficiencyOrder(Front(log), n, page);
      BinStep(log, n, page);
      ClassStep(log, n);
    }
  }

  /** Leaked bytes per bin add up to requested minus freed. */
  lemma {:induction false} NetAddsUp(log: Log, n: nat)
    requires Sized(log, n)
    ensures NetSum(log, n) == Net(log)
  {
    if log == [] {
      EmptyTotals(n, 0);
    } else {
      SizedFront(log, n);
      NetAddsUp(Front(log), n);
      NetStep(log, n);
    }
  }

  function PutCount(log: Log, n: nat): nat {
    if n == 0 then 0 else PutCount(log, n - 1) + Puts(log, n - 1)
  }

  /** The sum over bins of frees(i) * (2^i + page). */
  function PutBytesGuarded(log: Log, n: nat, page: nat): nat {
    if n == 0 then 0 else PutBytesGuarded(log, n - 1, page) + Puts(log, n - 1) * (Pow2(n - 1) + page)
  }

  function SumSeq(s: seq<nat>): nat {
    if s == [] then 0 else s[0] + SumSeq(s[1..])
  }

  lemma {:induction false} SumSeqConcat(a: seq<nat>, b: seq<nat>)
    ensures SumSeq(a + b) == SumSeq(a) + SumSeq(b)
  {
    if a == [] {
      assert a + b == b;
    } else {
      SumSeqConcat(a[1..], b);
      assert (a + b)[1..] == a[1..] + b;
    }
  }

  /** What the exit report adds up. */
  datatype Totals = Totals(
    requested: nat,
    freed: nat,
    pow2: nat,
    alloced: nat,
    allocedGuarded: nat,
    freedGuarded: nat,
    allocs: nat,
    frees: nat)

  const NOTHING := Totals(0, 0, 0, 0, 0, 0, 0, 0)

  function Plus(a: Totals, b: Totals): Totals {
    Totals(a.requested + b.requested, a.freed + b.freed, a.pow2 + b.pow2, a.alloced + b.alloced,
           a.allocedGuarded + b.allocedGuarded, a.freedGuarded + b.freedGuarded, a.allocs + b.allocs, a.frees + b.frees)
  }

  function SlotTotals(log: Log, n: nat, page: nat): Totals {
    Totals(GotBytes(log), PutBytes(log), ClassBytes(log, n), BinBytes(log, n),
           BinBytesGuarded(log, n, page), PutBytesGuarded(log, n, page), GetCount(log, n), PutCount(log, n))
  }

  // ---------------------------------------------------------------- what the totals are totals of

  /** The lines of the report, as what each single allocation or free contributes to them. */
  datatype Line = AskedFor | Returned | AsPowers | InBins | WithGuard | ReturnedWithGuard | GetsMade | PutsMade

  function Entry(t: Totals, line: Line): nat {
    match line
    case AskedFor => t.requested
    case Returned => t.freed
    case AsPowers => t.pow2
    case InBins => t.alloced
    case WithGuard => t.allocedGuarded
    case ReturnedWithGuard => t.freedGuarded
    case GetsMade => t.allocs
    case PutsMade => t.frees
  }

  function Share(e: Event, line: Line, page: nat): nat {
    match line
    case AskedFor => if e.Get? then e.size else 0
    case Returned => if e.Put? then e.size else 0
    case AsPowers => if e.Get? then Pow2(e.cls) else 0
    case InBins => if e.Get? then Pow2(e.bin) else 0
    case WithGuard => if e.Get? then Pow2(e.bin) + page else 0
    case ReturnedWithGuard => if e.Put? then Pow2(e.bin) + page else 0
    case GetsMade => if e.Get? then 1 else 0
    case PutsMade => if e.Put? then 1 else 0
  }

  function ShareSum(log: Log, line: Line, page: nat): nat {
    if log == [] then 0 else ShareSum(Front(log), line, page) + Share(Last(log), line, page)
  }

  lemma {:induction false} ShareSumConcat(a: Log, b: Log, line: Line, page: nat)
    ensures ShareSum(a + b, line, page) == ShareSum(a, line, page) + ShareSum(b, line, page)
  {
    hide Share;
    if b == [] {
      assert a + b == a;
    } else {
      ShareSumConcat(a, Front(b), line, page);
      assert Front(a + b) == a + Front(b);
    }
  }

  /** What one more event adds to the totals of the frees. */
  lemma {:induction false} PutStep(log: Log, n: nat, page: nat)
    requires log != []
    ensures var e := Last(log); var f := Front(log);
      var hit := e.Put? && e.bin < n;
      && PutBytesGuarded(log, n, page) == PutBytesGuarded(f, n, page) + (if hit then Pow2(e.bin) + page else 0)
      && PutCount(log, n) == PutCount(f, n) + (if hit then 1 else 0)
  {
    if n != 0 {
      hide Pow2;
      PutStep(log, n - 1, page);
      MulStep(Puts(Front(log), n - 1), Pow2(n - 1) + page);
    }
  }

  lemma {:induction false} EmptyPuts(n: nat, page: nat)
    ensures PutBytesGuarded([], n, page) == 0 && PutCount([], n) == 0
  {
    if n != 0 { EmptyPuts(n - 1, page); }
  }

  lemma PlusEntries(a: Totals, b: Totals)
    ensures forall line :: Entry(Plus(a, b), line) == Entry(a, line) + Entry(b, line)
  {
  }

  /** Adding up bin by bin, as the report does, gives what each allocation and free contributes. */
  lemma {:induction false} TotalsMean(log: Log, n: nat, page: nat)
    requires Sized(log, n)
    ensures forall line :: Entry(SlotTotals(log, n, page), line) == ShareSum(log, line, page)
  {
    if log == [] {
      EmptyTotals(n, page);
      EmptyPuts(n, page);
    } else {
      hide Pow2, BinBytes, BinBytesGuarded, ClassBytes, GetCount, PutCount, PutBytesGuarded;
      SizedFront(log, n);
      TotalsMean(Front(log), n, page);
      BinStep(log, n, page);
      ClassStep(log, n);
      PutStep(log, n, page);
      var t, u := SlotTotals(log, n, page), SlotTotals(Front(log), n, page);
      forall line ensures Entry(t, line) == ShareSum(log, line, page) {
        assert Entry(u, line) == ShareSum(Front(log), line, page);
        assert Entry(t, line) == Entry(u, line) + Share(Last(log), line, page);
      }
    }
  }

  lemma EmptySlotTotals(n: nat, page: nat)
    ensures SlotTotals([], n, page).allocs == 0
  {
    EmptyTotals(n, page);
  }

  lemma SlotTotalsStart(log: Log, page: nat)
    ensures SlotTotals(log, 0, page) == NOTHING.(requested := GotBytes(log), freed := PutBytes(log))
  {
  }

  lemma SlotTotalsStep(log: Log, n: nat, page: nat)
    ensures var t := SlotTotals(log, n, page);
      SlotTotals(log, n + 1, page) == t.(
        pow2 := t.pow2 + ClassGets(log, n) * Pow2(n),
        alloced := t.alloced + Gets(log, n) * Pow2(n),
        allocedGuarded := t.allocedGuarded + Gets(log, n) * (Pow2(n) + page),
        freedGuarded := t.freedGuarded + Puts(log, n) * (Pow2(n) + page),
        allocs := t.allocs + Gets(log, n),
        frees := t.frees + Puts(log, n))
    ensures NetSum(log, n + 1) == NetSum(log, n) + NetInBin(log, n)
  {
  }

  /** Actual efficiency never exceeds theoretical efficiency, and the denominators vanish together,
      exactly when nothing was ever allocated. */
  predicate Ordered(t: Totals) {
    && t.requested <= t.pow2 <= t.alloced <= t.allocedGuarded
    && (t.pow2 == 0 <==> t.allocs == 0) && (t.alloced == 0 <==> t.allocs == 0)
  }

  lemma SlotOrdered(log: Log, n: nat, page: nat)
    requires Sized(log, n)
    ensures Ordered(SlotTotals(log, n, page))
  {
    EfficiencyOrder(log, n, page);
    if GetCount(log, n) == 0 {
      NoneMeansNothing(log, n);
    }
  }

  lemma {:induction false} NoneMeansNothing(log: Log, n: nat)
    requires Sized(log, n) && GetCount(log, n) == 0
    ensures BinBytes(log, n) == 0
  {
    if log == [] {
      EmptyTotals(n, 0);
    } else {
      SizedFront(log, n);
      BinStep(log, n, 0);
      NoneMeansNothing(Front(log), n);
    }
  }

  /** The last lines of the exit report: whole percentages, computed without a check for zero. */
  datatype Report = DividesByZero | Efficiency(guarded: nat, actual: nat, theoretical: nat)

  function Percent(t: Totals): Report {
    if t.allocedGuarded == 0 || t.alloced == 0 || t.pow2 == 0 then DividesByZero
    else Efficiency(100 * t.requested / t.allocedGuarded, 100 * t.requested / t.alloced, 100 * t.requested / t.pow2)
  }

  /** The report divides by zero exactly if nothing was ever allocated; otherwise actual efficiency never
      exceeds theoretical efficiency, and neither exceeds 100%. */
  lemma EfficiencyReport(t: Totals)
    requires Ordered(t)
    ensures Percent(t).DividesByZero? <==> t.allocs == 0
    ensures var r := Percent(t); r.Efficiency? ==> r.guarded <= r.actual <= r.theoretical <= 100
  {
    if t.allocs != 0 {
      Percentages(t.requested, t.pow2, t.alloced, t.allocedGuarded);
    }
  }

  /** q is x / d, rounded down. */
  predicate Floor(q: nat, x: nat, d: nat) {
    q * d <= x < (q + 1) * d
  }

  lemma PercentFloors(t: Totals)
    requires Percent(t).Efficiency?
    ensures var r := Percent(t);
      && Floor(r.guarded, 100 * t.requested, t.allocedGuarded)
      && Floor(r.actual, 100 * t.requested, t.alloced)
      && Floor(r.theoretical, 100 * t.requested, t.pow2)
  {
    DivFloor(100 * t.requested, t.allocedGuarded);
    DivFloor(100 * t.requested, t.alloced);
    DivFloor(100 * t.requested, t.pow2);
  }

  lemma DivFloor(x: nat, d: nat)
    requires d > 0
    ensures Floor(x / d, x, d)
  {
    MulStep(x / d, d);
  }

  /** The three percentages of the report are ordered and at most 100. */
  lemma Percentages(requested: nat, pow2: nat, alloced: nat, guarded: nat)
    requires requested <= pow2 <= alloced <= guarded && pow2 > 0
    ensures 100 * requested / guarded <= 100 * requested / alloced <= 100 * requested / pow2 <= 100
  {
    DivMono(100 * requested, alloced, guarded);
    DivMono(100 * requested, pow2, alloced);
    DivBelow(requested, pow2);
  }

  lemma DivMono(x: nat, a: nat, b: nat)
    requires 0 < a <= b
    ensures x / b <= x / a
  {
    var q := x / b;
    MulMono(a, b, q);
    assert a * q <= b * q <= x;
    DivLower(x, a, q);
  }

  lemma DivLower(x: nat, a: nat, q: nat)
    requires a > 0 && a * q <= x
    ensures q <= x / a
  {
    var d := x / a;
    assert x < a * (d + 1);
    MulMono(d + 1, Max(d + 1, q), a);
  }

  lemma DivBelow(r: nat, p: nat)
    requires r <= p && p > 0
    ensures 100 * r / p <= 100
  {
    var d := 100 * r / p;
    assert d * p <= 100 * r;
    MulMono(101, Max(101, d), p);
  }
}
