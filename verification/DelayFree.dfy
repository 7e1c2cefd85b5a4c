// The delayed-free ring: a circular buffer of freed headers whose pages are inaccessible.
module DelayFree {
  import opened Bits
  import opened Memory

  function SumPow2(bins: seq<nat>): nat {
    if bins == [] then 0 else Pow2(bins[0]) + SumPow2(bins[1..])
  }

  lemma {:induction false} SumPow2Append(bins: seq<nat>, b: nat)
    ensures SumPow2(bins + [b]) == SumPow2(bins) + Pow2(b)
  {
    if bins == [] {
      assert bins + [b] == [b] && [b][1..] == [];
    } else {
      SumPow2Append(bins[1..], b);
      assert (bins + [b])[1..] == bins[1..] + [b];
    }
  }

  lemma SumPow2Tail(bins: seq<nat>)
    requires bins != []
    ensures SumPow2(bins) == Pow2(bins[0]) + SumPow2(bins[1..])
  {
  }

  /** Stepping an index around the ring. */
  lemma Around(i: nat, cap: nat)
    requires i < cap
    ensures (i + 1) % cap == if i + 1 == cap then 0 else i + 1
  {
    if i + 1 < cap {
      assert (i + 1) / cap == 0;
    }
  }

  class MemFreeDelay {
    // Position among the slots
    const num: nat
    // MAX_DELAY_ELMS
    const cap: nat
    const elms: array<Ptr>
    var head: nat
    var tail: nat
    var numDelayed: nat
    var bytesDelayed: nat
    // The bin of each queued block, oldest first
    ghost var bins: seq<nat>
    // Every block ever put
    ghost var puts: seq<Ptr>

    ghost predicate Valid()
      reads this, elms
    {
      && cap >= 4 && cap % 4 == 0 && elms.Length == cap
      && head < cap && tail < cap
      && numDelayed == (if tail <= head then head - tail else cap - (tail - head))
      && |bins| == numDelayed && bytesDelayed == SumPow2(bins)
    }

    /** The queued headers, oldest first. */
    ghost function Contents(): (q: seq<Ptr>)
      reads this, elms
      requires Valid()
      ensures |q| == numDelayed
    {
      if tail <= head then elms[tail..head] else elms[tail..] + elms[..head]
    }

    constructor (num: nat, cap: nat)
      requires cap >= 4 && cap % 4 == 0
      ensures Valid() && Contents() == [] && bins == [] && puts == []
      ensures this.num == num && this.cap == cap && fresh(elms)
    {
      this.num, this.cap := num, cap;
      elms := new Ptr[cap](i => NULL);
      head, tail, numDelayed, bytesDelayed := 0, 0, 0, 0;
      bins, puts := [], [];
    }

    predicate CircEmpty()
      reads this
    {
      head == tail
    }

    predicate CircFull()
      reads this
      requires cap > 0
    {
      (head + 1) % cap == tail
    }

    /** The two redundant ways of counting always agree. */
    method CircCount() returns (n: nat)
      requires Valid()
      ensures n == |Contents()|
      ensures CircEmpty() <==> n == 0
      ensures CircFull() <==> n == cap - 1
    {
      if CircEmpty() {
        Around(head, cap);
        return 0;
      }
      Around(head, cap);
      var ct := if head > tail then head - tail else cap - (tail - head);
      assert ct == numDelayed;
      return numDelayed;
    }

    method CircPut(space: AddressSpace, hdr: Ptr)
      requires Valid() && !CircFull()
      requires IsHdr(space.mem, hdr) && space.CanUse(hdr, ELM_HDR_BYTES)
      modifies this, elms
      ensures Valid() && Contents() == old(Contents()) + [hdr]
      ensures bins == old(bins) + [space.mem[hdr].hdr.binNum] && puts == old(puts) + [hdr]
    {
      Around(head, cap);
      ghost var b := space.mem[hdr].hdr.binNum;
      elms[head] := hdr;
      head := (head + 1) % cap;
      numDelayed := numDelayed + 1;
      bytesDelayed := bytesDelayed + Pow2(space.LoadHdr(hdr).binNum);
      SumPow2Append(bins, b);
      bins := bins + [b];
      puts := puts + [hdr];
    }

    /** The oldest header, its first page made accessible so that its bin can be read. */
    method CircGet(space: AddressSpace) returns (hdr: Ptr)
      requires Valid() && !CircEmpty() && space.Valid()
      requires Contents()[0] % PAGE_SIZE == 0 && Mapped(space.mem, Contents()[0], PAGE_SIZE)
      requires IsHdr(space.mem, Contents()[0]) && space.mem[Contents()[0]].hdr.binNum == bins[0]
      modifies this, space`noAccess
      ensures Valid() && space.Valid()
      ensures [hdr] + Contents() == old(Contents()) && bins == old(bins)[1..] && puts == old(puts)
      ensures space.noAccess == old(space.noAccess) - Range(hdr, PAGE_SIZE)
    {
      hide SumPow2, Pow2, IsHdr;
      SumPow2Tail(bins);
      Around(tail, cap);
      hdr := elms[tail];
      assert old(Contents())[0] == hdr;
      tail := (tail + 1) % cap;
      assert numDelayed > 0;
      numDelayed := numDelayed - 1;
      space.Mprotect(hdr, PAGE_SIZE, true);
      bytesDelayed := bytesDelayed - Pow2(space.LoadHdr(hdr).binNum);
      bins := bins[1..];
    }

    /** Queue a header and take all access away from its block. */
    method PutInaccessible(space: AddressSpace, hdr: Ptr)
      requires Valid() && numDelayed <= cap / 2 && space.Valid()
      requires IsHdr(space.mem, hdr) && space.CanUse(hdr, ELM_HDR_BYTES) && hdr % PAGE_SIZE == 0
      requires Pow2(space.mem[hdr].hdr.binNum) % PAGE_SIZE == 0
      requires Mapped(space.mem, hdr, Pow2(space.mem[hdr].hdr.binNum))
      modifies this, elms, space`noAccess
      ensures Valid() && space.Valid() && Contents() == old(Contents()) + [hdr] && puts == old(puts) + [hdr]
      ensures bins == old(bins) + [space.mem[hdr].hdr.binNum]
      ensures space.noAccess == old(space.noAccess) + Range(hdr, Pow2(space.mem[hdr].hdr.binNum))
    {
      var count := CircCount();
      CircPut(space, hdr);
      var elmSize := Pow2(space.LoadHdr(hdr).binNum);
      space.Mprotect(hdr, elmSize, false);
    }

    /** The oldest header with its whole block made accessible: larger blocks need a second call. */
    method GetAccessible(space: AddressSpace) returns (hdr: Ptr, binNum: nat)
      requires Valid() && !CircEmpty() && space.Valid()
      requires Contents()[0] % PAGE_SIZE == 0 && Pow2(bins[0]) % PAGE_SIZE == 0 && Pow2(bins[0]) >= PAGE_SIZE
      requires Mapped(space.mem, Contents()[0], Pow2(bins[0]))
      requires IsHdr(space.mem, Contents()[0]) && space.mem[Contents()[0]].hdr.binNum == bins[0]
      modifies this, space`noAccess
      ensures Valid() && space.Valid() && binNum == old(bins)[0]
      ensures [hdr] + Contents() == old(Contents()) && bins == old(bins)[1..] && puts == old(puts)
      ensures space.noAccess == old(space.noAccess) - Range(hdr, Pow2(binNum))
    {
      hdr := CircGet(space);
      assert hdr == old(Contents())[0];
      binNum := space.LoadHdr(hdr).binNum;
      var elmSize := Pow2(binNum);
      if elmSize > PAGE_SIZE {
        space.Mprotect(hdr, elmSize, true);
      }
    }
  }

  // ---------------------------------------------------------------- how long blocks stay

  /** Blocks released by the first n calls of `delayPut`: a call that finds more than half the ring
      in use first drains it to a quarter. */
  function Released(cap: nat, n: nat): (r: nat)
    ensures r <= n
  {
    if n == 0 then 0
    else if n - 1 - Released(cap, n - 1) > cap / 2 then Max(Released(cap, n - 1), n - 1 - cap / 4)
    else Released(cap, n - 1)
  }

  function Drains(cap: nat, n: nat): nat {
    if n == 0 then 0
    else Drains(cap, n - 1) + (if n - 1 - Released(cap, n - 1) > cap / 2 then 1 else 0)
  }

  /** Every drain releases exactly cap/4 + 1 blocks, and a drain happens every cap/4 + 1 calls. */
  lemma {:induction false} DrainSchedule(cap: nat, n: nat)
    requires cap >= 4 && cap % 4 == 0
    ensures var d := Drains(cap, n); var p := cap / 4 + 1;
      && Released(cap, n) == d * p
      && n < cap / 2 + 2 + d * p
      && (d > 0 ==> cap / 2 + 2 + (d - 1) * p <= n)
  {
    if n != 0 {
      DrainSchedule(cap, n - 1);
      var d, p := Drains(cap, n - 1), cap / 4 + 1;
      var r := d * p;
      assert cap / 2 == 2 * p - 2 && Released(cap, n - 1) == r;
      if n - 1 - r > cap / 2 {
        assert Drains(cap, n) == d + 1 && Released(cap, n) == r + p;
        MulStep(d, p);
      } else {
        assert Drains(cap, n) == d && Released(cap, n) == r;
      }
    }
  }

  /** One call of `delayPut`: q is queued, q1 is what a drain leaves of it, and h joins. */
  lemma ScheduleStep(cap: nat, puts: seq<Ptr>, q: seq<Ptr>, q1: seq<Ptr>, h: Ptr)
    requires q == puts[Released(cap, |puts|)..]
    requires q1 == if |q| > cap / 2 then q[|q| - cap / 4..] else q
    ensures q1 + [h] == (puts + [h])[Released(cap, |puts| + 1)..]
  {
  }

  /** Never more than cap/2 + 1 blocks are queued, so the ring never fills. */
  lemma QueueBound(cap: nat, n: nat)
    requires cap >= 4 && cap % 4 == 0
    ensures n - Released(cap, n) <= cap / 2 + 1 <= cap - 1
    ensures n > 0 ==> Released(cap, n) < n
  {
    DrainSchedule(cap, n);
  }

  /** The call during which the k-th block put is released. */
  function ReleaseAt(cap: nat, k: nat): nat
    requires k > 0
  {
    cap / 2 + 2 + (k - 1) / (cap / 4 + 1) * (cap / 4 + 1)
  }

  /** The k-th block put is queued after n calls exactly if n is in [k, ReleaseAt), and that window
      is between cap/4 + 1 and cap/2 + 1 calls long. */
  lemma QuarantineWindow(cap: nat, k: nat, n: nat)
    requires cap >= 4 && cap % 4 == 0 && 0 < k <= n
    ensures Released(cap, n) < k <==> n < ReleaseAt(cap, k)
    ensures k + cap / 4 + 1 <= ReleaseAt(cap, k) <= k + cap / 2 + 1
  {
    DrainSchedule(cap, n);
    Window(cap / 4 + 1, Drains(cap, n), k, n);
  }

  lemma Window(p: nat, d: nat, k: nat, n: nat)
    requires p > 0 && 0 < k <= n && n < 2 * p + d * p && (d > 0 ==> 2 * p + (d - 1) * p <= n)
    ensures d * p < k <==> n < 2 * p + (k - 1) / p * p
    ensures k + p <= 2 * p + (k - 1) / p * p <= k + 2 * p - 1
  {
    var a := (k - 1) / p;
    assert a * p + (k - 1) % p == k - 1;
    if a >= d {
      MulMono(d, a, p);
    } else {
      MulMono(a + 1, d, p);
      assert (a + 1) * p == a * p + p;
      MulMono(a, d - 1, p);
    }
  }

  /** With the shipped ring of 32768 entries, a freed block comes out during one of its slot's later frees from
      number 8193 to number 16385. */
  lemma QuarantineShipped(k: nat, n: nat)
    requires 0 < k <= n
    ensures n < k + 8193 ==> Released(32768, n) < k
    ensures n >= k + 16385 ==> Released(32768, n) >= k
  {
    QuarantineWindow(32768, k, n);
  }
}
