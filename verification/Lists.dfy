// The intrusive doubly linked lists threaded through block headers.
module Lists {
  import opened Memory

  ghost predicate NoDup(s: seq<Ptr>) {
    forall i, j | 0 <= i < j < |s| :: s[i] != s[j]
  }

  /** The i-th element, or NULL off either end. */
  function At(s: seq<Ptr>, i: int): Ptr {
    if 0 <= i < |s| then s[i] else NULL
  }

  function First(s: seq<Ptr>): Ptr {
    At(s, 0)
  }

  function Without(s: seq<Ptr>, k: nat): seq<Ptr>
    requires k < |s|
  {
    s[..k] + s[k + 1..]
  }

  ghost predicate LinkedAt(m: Mem, s: seq<Ptr>, i: nat)
    requires i < |s|
  {
    HasHdr(m, s[i]) && m[s[i]].hdr.next == At(s, i + 1) && m[s[i]].hdr.prev == At(s, i - 1)
  }

  /** The list whose head pointer is First(s) holds exactly the headers of s, in that order. */
  ghost predicate Linked(m: Mem, s: seq<Ptr>) {
    NoDup(s) && NULL !in s && forall i | 0 <= i < |s| :: LinkedAt(m, s, i)
  }

  function SetNext(m: Mem, h: Ptr, p: Ptr): Mem {
    if HasHdr(m, h) then PutHdr(m, h, m[h].hdr.(next := p)) else m
  }

  function SetPrev(m: Mem, h: Ptr, p: Ptr): Mem {
    if HasHdr(m, h) then PutHdr(m, h, m[h].hdr.(prev := p)) else m
  }

  /** Memory after `insertElmHead`. */
  function LinkFront(m: Mem, head: Ptr, elm: Ptr): Mem {
    var m1 := if head != NULL then SetPrev(m, head, elm) else m;
    SetPrev(SetNext(m1, elm, head), elm, NULL)
  }

  /** Memory after `rmElm`. */
  function Unlink(m: Mem, elm: Ptr): Mem {
    if !HasHdr(m, elm) then m else
    var m1 := if m[elm].hdr.prev != NULL then SetNext(m, m[elm].hdr.prev, m[elm].hdr.next) else m;
    var m2 := if m1[elm].hdr.next != NULL then SetPrev(m1, m1[elm].hdr.next, m1[elm].hdr.prev) else m1;
    SetNext(SetPrev(m2, elm, NULL), elm, NULL)
  }

  /** m' differs from m only in the link fields of headers. */
  ghost predicate SameButLinks(m: Mem, m': Mem) {
    m'.Keys == m.Keys &&
    forall x | x in m :: m'[x] == m[x] || (m[x].Hdr? && m'[x].Hdr? && Unlinked(m'[x].hdr) == Unlinked(m[x].hdr))
  }

  function Unlinked(h: ElmHdr): ElmHdr {
    h.(next := NULL, prev := NULL)
  }

  lemma LinkFrontLinks(m: Mem, s: seq<Ptr>, elm: Ptr)
    requires Linked(m, s) && HasHdr(m, elm) && elm != NULL && elm !in s
    ensures First(s) != NULL ==> HasHdr(m, First(s))
    ensures Linked(LinkFront(m, First(s), elm), [elm] + s)
    ensures SameButLinks(m, LinkFront(m, First(s), elm))
    ensures forall x | x in m && x != elm && x !in s :: LinkFront(m, First(s), elm)[x] == m[x]
  {
    if s != [] {
      assert LinkedAt(m, s, 0);
    }
    var m' := LinkFront(m, First(s), elm);
    var t := [elm] + s;
    forall i | 0 <= i < |t| ensures LinkedAt(m', t, i) {
      if i > 0 {
        assert LinkedAt(m, s, i - 1);
      }
    }
  }

  lemma UnlinkLinks(m: Mem, s: seq<Ptr>, k: nat)
    requires Linked(m, s) && k < |s|
    ensures HasHdr(m, s[k]) && m[s[k]].hdr.next == At(s, k + 1) && m[s[k]].hdr.prev == At(s, k - 1)
    ensures m[s[k]].hdr.prev != NULL ==> HasHdr(m, m[s[k]].hdr.prev)
    ensures m[s[k]].hdr.next != NULL ==> HasHdr(m, m[s[k]].hdr.next)
    ensures Linked(Unlink(m, s[k]), Without(s, k)) && s[k] !in Without(s, k)
    ensures SameButLinks(m, Unlink(m, s[k]))
    ensures forall x | x in m && x !in s :: Unlink(m, s[k])[x] == m[x]
  {
    assert LinkedAt(m, s, k);
    if k > 0 { assert LinkedAt(m, s, k - 1); }
    if k + 1 < |s| { assert LinkedAt(m, s, k + 1); }
    var t := Without(s, k);
    forall i | 0 <= i < |t| ensures LinkedAt(Unlink(m, s[k]), t, i) {
      UnlinkLinkedAt(m, s, k, i);
    }
  }

  lemma UnlinkLinkedAt(m: Mem, s: seq<Ptr>, k: nat, i: nat)
    requires Linked(m, s) && k < |s| && i < |s| - 1
    ensures LinkedAt(Unlink(m, s[k]), Without(s, k), i)
  {
    assert LinkedAt(m, s, k);
    if k > 0 { assert LinkedAt(m, s, k - 1); }
    if k + 1 < |s| { assert LinkedAt(m, s, k + 1); }
    assert LinkedAt(m, s, if i < k then i else i + 1);
  }

  lemma LinkedFrame(m: Mem, m': Mem, s: seq<Ptr>)
    requires Linked(m, s)
    requires forall h | h in s && HasHdr(m, h) ::
      HasHdr(m', h) && m'[h].hdr.next == m[h].hdr.next && m'[h].hdr.prev == m[h].hdr.prev
    ensures Linked(m', s)
  {
    forall i | 0 <= i < |s| ensures LinkedAt(m', s, i) {
      assert LinkedAt(m, s, i) && s[i] in s;
    }
  }

  /** The header at h is intact and may be read and written. */
  ghost predicate Ready(m: Mem, noAccess: set<Ptr>, h: Ptr) {
    h != NULL && IsHdr(m, h) && Reachable(noAccess, h, ELM_HDR_BYTES)
  }

  function HdrOf(space: AddressSpace, h: Ptr): (e: ElmHdr)
    reads space
    requires space.Valid() && Ready(space.mem, space.noAccess, h)
    ensures HasHdr(space.mem, h) && e == space.mem[h].hdr
  {
    space.LoadHdr(h)
  }

  /** A header store leaves every usable header usable. */
  method Relink(space: AddressSpace, h: Ptr, hdr: ElmHdr)
    requires space.Valid() && Ready(space.mem, space.noAccess, h)
    modifies space`mem
    ensures space.Valid() && space.mem == PutHdr(old(space.mem), h, hdr)
    ensures forall g | Ready(old(space.mem), space.noAccess, g) :: Ready(space.mem, space.noAccess, g)
  {
    space.StoreHdr(h, hdr);
  }

  /** Put elm in front of the list s headed by `head`. */
  method InsertElmHead(space: AddressSpace, head: Ptr, elm: Ptr, ghost s: seq<Ptr>) returns (newHead: Ptr)
    requires space.Valid() && Linked(space.mem, s) && head == First(s) && elm !in s
    requires Ready(space.mem, space.noAccess, elm) && (head != NULL ==> Ready(space.mem, space.noAccess, head))
    modifies space`mem
    ensures space.Valid() && space.mem == LinkFront(old(space.mem), head, elm)
    ensures Linked(space.mem, [elm] + s) && newHead == First([elm] + s)
    ensures SameButLinks(old(space.mem), space.mem)
  {
    hide IsHdr, Linked, SameButLinks;
    ReadyHdr(space.mem, space.noAccess, elm);
    LinkFrontLinks(space.mem, s, elm);
    hide Ready;
    if head != NULL {
      Relink(space, head, HdrOf(space, head).(prev := elm));
    }
    Relink(space, elm, HdrOf(space, elm).(next := head));
    Relink(space, elm, HdrOf(space, elm).(prev := NULL));
    newHead := elm;
  }

  lemma ReadyHdr(m: Mem, noAccess: set<Ptr>, h: Ptr)
    requires Ready(m, noAccess, h)
    ensures h != NULL && HasHdr(m, h)
  {
  }

  /** Take elm, the k-th of the list s headed by `head`, off it. */
  method RmElm(space: AddressSpace, head: Ptr, elm: Ptr, ghost s: seq<Ptr>, ghost k: nat) returns (newHead: Ptr)
    requires space.Valid() && Linked(space.mem, s) && head == First(s) && k < |s| && s[k] == elm
    requires Ready(space.mem, space.noAccess, elm)
    requires k > 0 ==> Ready(space.mem, space.noAccess, s[k - 1])
    requires k + 1 < |s| ==> Ready(space.mem, space.noAccess, s[k + 1])
    modifies space`mem
    ensures space.Valid() && space.mem == Unlink(old(space.mem), elm)
    ensures Linked(space.mem, Without(s, k)) && newHead == First(Without(s, k))
    ensures SameButLinks(old(space.mem), space.mem)
  {
    UnlinkLinks(space.mem, s, k);
    hide IsHdr, Linked, SameButLinks, Ready;
    newHead := head;
    if head == elm {
      newHead := HdrOf(space, elm).next;
    }
    if HdrOf(space, elm).prev != NULL {
      var p := HdrOf(space, elm).prev;
      Relink(space, p, HdrOf(space, p).(next := HdrOf(space, elm).next));
    }
    if HdrOf(space, elm).next != NULL {
      var n := HdrOf(space, elm).next;
      Relink(space, n, HdrOf(space, n).(prev := HdrOf(space, elm).prev));
    }
    Relink(space, elm, HdrOf(space, elm).(prev := NULL));
    Relink(space, elm, HdrOf(space, elm).(next := NULL));
  }
}
