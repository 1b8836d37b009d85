// malloc(), free() and morecore() on a memory of headers, in place.
module Umalloc {
  import opened Common
  import opened FreeList

  datatype Header = Header(ptr: int, size: nat)
  type Memory = map<int, Header>

  const HEADER_BYTES := 16
  const MIN_CORE := 4096

  // The headers of the blocks s, each pointing to the next, the last to end.
  ghost predicate Chain(mem: Memory, s: seq<Blk>, end: int) {
    forall j :: 0 <= j < |s| ==> NodeAt(mem, s, j, end)
  }

  predicate NodeAt(mem: Memory, s: seq<Blk>, j: nat, end: int)
    requires j < |s|
  {
    s[j].addr in mem && mem[s[j].addr] == Header(if j + 1 < |s| then s[j + 1].addr else end, s[j].size)
  }

  function First(s: seq<Blk>, end: int): int {
    if s == [] then end else s[0].addr
  }

  lemma ChainSplit(mem: Memory, a: seq<Blk>, c: seq<Blk>, end: int)
    requires Chain(mem, a + c, end)
    ensures Chain(mem, a, First(c, end)) && Chain(mem, c, end)
  {
    forall j | 0 <= j < |a| ensures NodeAt(mem, a, j, First(c, end)) {
      assert NodeAt(mem, a + c, j, end);
    }
    forall j | 0 <= j < |c| ensures NodeAt(mem, c, j, end) {
      assert NodeAt(mem, a + c, |a| + j, end);
    }
  }

  lemma ChainJoin(mem: Memory, a: seq<Blk>, c: seq<Blk>, end: int)
    requires Chain(mem, a, First(c, end)) && Chain(mem, c, end)
    ensures Chain(mem, a + c, end)
  {
    forall j | 0 <= j < |a + c| ensures NodeAt(mem, a + c, j, end) {
      if j < |a| {
        assert NodeAt(mem, a, j, First(c, end));
      } else {
        assert NodeAt(mem, c, j - |a|, end);
      }
    }
  }

  lemma ChainFrame(mem: Memory, mem': Memory, s: seq<Blk>, end: int)
    requires Chain(mem, s, end)
    requires forall j :: 0 <= j < |s| ==> s[j].addr in mem ==> s[j].addr in mem' && mem'[s[j].addr] == mem[s[j].addr]
    ensures Chain(mem', s, end)
  {
    forall j | 0 <= j < |s| ensures NodeAt(mem', s, j, end) {
      assert NodeAt(mem, s, j, end);
    }
  }

  lemma ChainOne(mem: Memory, b: Blk, end: int)
    ensures Chain(mem, [b], end) <==> b.addr in mem && mem[b.addr] == Header(end, b.size)
  {
    assert Chain(mem, [b], end) ==> NodeAt(mem, [b], 0, end);
  }

  // free()'s stores, once p is known to be the block below bp.
  function FreeStores(mem: Memory, p: int, bp: int): Memory
    requires p in mem && bp in mem && mem[p].ptr in mem
  {
    var next := mem[p].ptr;
    var mem1 := mem[bp := if bp + mem[bp].size == next then Header(mem[next].ptr, mem[bp].size + mem[next].size)
                          else Header(next, mem[bp].size)];
    mem1[p := if p + mem1[p].size == bp then Header(mem1[bp].ptr, mem1[p].size + mem1[bp].size)
              else Header(bp, mem1[p].size)]
  }

  // The blocks below p and above the freed one keep their headers.
  lemma FreeStoresFrame(mem: Memory, fl: seq<Blk>, i: nat, b: Blk, mem': Memory)
    requires ListOk(fl) && Between(fl, i, b) && b.size >= 1 && Chain(mem, fl, fl[0].addr)
    requires forall a :: a in mem && a != fl[i].addr && a != b.addr ==> a in mem' && mem'[a] == mem[a]
    ensures Chain(mem', fl[..i], fl[i].addr) && Chain(mem', Rest(fl, i, b), fl[0].addr)
  {
    KeepBelow(mem, fl, i, mem', b.addr);
    KeepAbove(mem, fl, if JoinsUp(fl, i, b) then i + 2 else i + 1, mem', fl[i].addr, b.addr);
  }

  lemma KeepBelow(mem: Memory, fl: seq<Blk>, i: nat, mem': Memory, x: int)
    requires ListOk(fl) && Chain(mem, fl, fl[0].addr) && i < |fl| && fl[i].addr < x
    requires forall a :: a in mem && a != fl[i].addr && a != x ==> a in mem' && mem'[a] == mem[a]
    ensures Chain(mem', fl[..i], fl[i].addr)
  {
    assert fl == fl[..i] + fl[i..];
    ChainSplit(mem, fl[..i], fl[i..], fl[0].addr);
    ChainFrame(mem, mem', fl[..i], fl[i].addr);
  }

  lemma KeepAbove(mem: Memory, fl: seq<Blk>, k: nat, mem': Memory, x: int, y: int)
    requires ListOk(fl) && Chain(mem, fl, fl[0].addr) && k <= |fl|
    requires forall j :: k <= j < |fl| ==> fl[j].addr != x && fl[j].addr != y
    requires forall a :: a in mem && a != x && a != y ==> a in mem' && mem'[a] == mem[a]
    ensures Chain(mem', fl[k..], fl[0].addr)
  {
    assert fl == fl[..k] + fl[k..];
    ChainSplit(mem, fl[..k], fl[k..], fl[0].addr);
    ChainFrame(mem, mem', fl[k..], fl[0].addr);
  }

  // The stores turn the list into the list with b inserted.
  lemma FreeStoresLink(mem: Memory, fl: seq<Blk>, i: nat, b: Blk)
    requires ListOk(fl) && Between(fl, i, b) && b.size >= 1 && Chain(mem, fl, fl[0].addr)
    requires b.addr in mem && mem[b.addr].size == b.size
    ensures fl[i].addr in mem && mem[fl[i].addr].ptr in mem
    ensures Chain(FreeStores(mem, fl[i].addr, b.addr), Insert(fl, i, b), fl[0].addr)
  {
    var end := fl[0].addr;
    FreeStoresAt(mem, fl, i, b);
    var mem' := FreeStores(mem, fl[i].addr, b.addr);
    FreeStoresFrame(mem, fl, i, b, mem');
    var up, rest := Upper(fl, i, b), Rest(fl, i, b);
    if fl[i].End() == b.addr {
      Link1(mem', fl[..i], Blk(fl[i].addr, fl[i].size + up.size), rest, end);
    } else {
      ChainOne(mem', fl[i], up.addr);
      ChainJoin(mem', fl[..i], [fl[i]], up.addr);
      assert fl[..i + 1] == fl[..i] + [fl[i]];
      Link1(mem', fl[..i + 1], up, rest, end);
    }
  }

  lemma Link1(mem: Memory, a: seq<Blk>, m: Blk, c: seq<Blk>, end: int)
    requires Chain(mem, a, m.addr) && Chain(mem, c, end)
    requires m.addr in mem && mem[m.addr] == Header(First(c, end), m.size)
    ensures Chain(mem, a + [m] + c, end)
  {
    ChainOne(mem, m, First(c, end));
    ChainJoin(mem, a, [m], First(c, end));
    ChainJoin(mem, a + [m], c, end);
  }

  lemma FreeStoresAt(mem: Memory, fl: seq<Blk>, i: nat, b: Blk)
    requires ListOk(fl) && Between(fl, i, b) && b.size >= 1 && Chain(mem, fl, fl[0].addr)
    requires b.addr in mem && mem[b.addr].size == b.size
    ensures fl[i].addr in mem && mem[fl[i].addr].ptr in mem
    ensures var mem' := FreeStores(mem, fl[i].addr, b.addr);
            var after := First(Rest(fl, i, b), fl[0].addr);
            if fl[i].End() == b.addr
            then mem'[fl[i].addr] == Header(after, fl[i].size + Upper(fl, i, b).size)
            else mem'[fl[i].addr] == Header(b.addr, fl[i].size)
                 && mem'[b.addr] == Header(after, Upper(fl, i, b).size)
  {
    var end := fl[0].addr;
    assert NodeAt(mem, fl, i, end);
    assert NodeAt(mem, fl, if i + 1 < |fl| then i + 1 else 0, end);
  }

  // malloc()'s stores when block p, after prevp, is large enough.
  function MallocStores(mem: Memory, prevp: int, p: int, n: nat): Memory
    requires prevp in mem && p in mem && mem[p].size >= n
  {
    if mem[p].size == n then mem[prevp := Header(mem[p].ptr, mem[prevp].size)]
    else
      var q := p + mem[p].size - n;
      mem[p := Header(mem[p].ptr, mem[p].size - n)][q := Header(if q in mem then mem[q].ptr else 0, n)]
  }

  lemma MallocStoresLink(mem: Memory, fl: seq<Blk>, i: nat, n: nat)
    requires ListOk(fl) && Chain(mem, fl, fl[0].addr) && 1 <= i < |fl| && 1 <= n <= fl[i].size
    ensures fl[i - 1].addr in mem && fl[i].addr in mem && mem[fl[i].addr].size == fl[i].size
    ensures var mem' := MallocStores(mem, fl[i - 1].addr, fl[i].addr, n);
            && Chain(mem', Carve(fl, i, n), fl[0].addr)
            && CarvedAt(fl, i, n) in mem' && mem'[CarvedAt(fl, i, n)].size == n
  {
    assert NodeAt(mem, fl, i - 1, fl[0].addr) && NodeAt(mem, fl, i, fl[0].addr);
    var mem' := MallocStores(mem, fl[i - 1].addr, fl[i].addr, n);
    if fl[i].size == n {
      WholeLink(mem, fl, i, mem');
    } else {
      TailLink(mem, fl, i, n, mem');
    }
  }

  lemma WholeLink(mem: Memory, fl: seq<Blk>, i: nat, mem': Memory)
    requires ListOk(fl) && Chain(mem, fl, fl[0].addr) && 1 <= i < |fl|
    requires fl[i - 1].addr in mem && fl[i].addr in mem
    requires mem' == mem[fl[i - 1].addr := Header(mem[fl[i].addr].ptr, mem[fl[i - 1].addr].size)]
    ensures Chain(mem', Carve(fl, i, fl[i].size), fl[0].addr)
  {
    var end := fl[0].addr;
    assert NodeAt(mem, fl, i - 1, end) && NodeAt(mem, fl, i, end);
    KeepBelow(mem, fl, i - 1, mem', fl[i].addr);
    KeepAbove(mem, fl, i + 1, mem', fl[i - 1].addr, fl[i].addr);
    Link1(mem', fl[..i - 1], fl[i - 1], fl[i + 1..], end);
    assert Carve(fl, i, fl[i].size) == fl[..i - 1] + [fl[i - 1]] + fl[i + 1..];
  }

  lemma TailLink(mem: Memory, fl: seq<Blk>, i: nat, n: nat, mem': Memory)
    requires ListOk(fl) && Chain(mem, fl, fl[0].addr) && 1 <= i < |fl| && 1 <= n < fl[i].size && fl[i].addr in mem
    requires var q := CarvedAt(fl, i, n);
             mem' == mem[fl[i].addr := Header(mem[fl[i].addr].ptr, fl[i].size - n)]
                        [q := Header(if q in mem then mem[q].ptr else 0, n)]
    ensures Chain(mem', Carve(fl, i, n), fl[0].addr)
  {
    var q, end := CarvedAt(fl, i, n), fl[0].addr;
    assert NodeAt(mem, fl, i, end);
    KeepBelow(mem, fl, i, mem', q);
    KeepAbove(mem, fl, i + 1, mem', fl[i].addr, q);
    Link1(mem', fl[..i], Blk(fl[i].addr, fl[i].size - n), fl[i + 1..], end);
    assert Carve(fl, i, n) == fl[..i] + [Blk(fl[i].addr, fl[i].size - n)] + fl[i + 1..];
  }

  // A block that shares no unit with the list lies in one of its gaps.
  lemma FindGap(fl: seq<Blk>, b: Blk) returns (t: nat)
    requires ListOk(fl) && fl[0].addr < b.addr && b.size >= 1
    requires forall u :: b.Has(u) ==> !FreeAt(fl, u)
    ensures Between(fl, t, b)
    ensures forall j :: 0 <= j < |fl| ==> (fl[j].addr < b.addr <==> j <= t)
  {
    t := 0;
    while t + 1 < |fl| && fl[t + 1].addr < b.addr
      invariant t < |fl| && fl[t].addr < b.addr
    {
      t := t + 1;
    }
    if fl[t].End() > b.addr {
      assert fl[t].Has(b.addr) && b.Has(b.addr);
    }
    if t + 1 < |fl| && b.End() > fl[t + 1].addr {
      assert fl[t + 1].Has(fl[t + 1].addr) && b.Has(fl[t + 1].addr);
    }
  }

  // ------------------------------------------------------------ the heap

  ghost predicate LiveAt(live: map<int, nat>, u: int) {
    exists a :: a in live && Blk(a, live[a]).Has(u)
  }

  // The units handed out by sbrk() are the free and the live ones, no unit
  // is both, and live blocks do not overlap.
  ghost predicate Partition(owned: set<int>, fl: seq<Blk>, live: map<int, nat>) {
    && (forall u :: u in owned <==> FreeAt(fl, u) || LiveAt(live, u))
    && (forall u :: !(FreeAt(fl, u) && LiveAt(live, u)))
    && NoOverlap(live)
  }

  ghost predicate NoOverlap(live: map<int, nat>) {
    forall a, c :: a in live && c in live && a != c ==> Apart(Blk(a, live[a]), Blk(c, live[c]))
  }

  predicate Apart(x: Blk, y: Blk) {
    x.End() <= y.addr || y.End() <= x.addr
  }

  ghost predicate Headers(mem: Memory, live: map<int, nat>) {
    forall a :: a in live ==> live[a] >= 1 && a in mem && mem[a].size == live[a]
  }

  ghost predicate Bounds(owned: set<int>, base: int, brk: int) {
    0 < base < brk && forall u :: u in owned ==> base < u < brk
  }

  // The list in memory is circular, in address order and coalesced, and
  // freep points into it.
  ghost predicate ListValid(mem: Memory, freep: int, fl: seq<Blk>, base: int) {
    ListOk(fl) && fl[0].addr == base && Chain(mem, fl, base) && exists k :: 0 <= k < |fl| && fl[k].addr == freep
  }

  ghost predicate HeapOk(mem: Memory, freep: int, fl: seq<Blk>, live: map<int, nat>, owned: set<int>, base: int,
      brk: int) {
    && Partition(owned, fl, live) && Headers(mem, live) && Bounds(owned, base, brk)
    && (freep == 0 ==> fl == [])
    && (freep != 0 ==> ListValid(mem, freep, fl, base))
  }

  lemma LiveRemoved(live: map<int, nat>, a: int, u: int)
    requires a in live
    requires NoOverlap(live)
    ensures LiveAt(live - {a}, u) <==> LiveAt(live, u) && !Blk(a, live[a]).Has(u)
  {
    if LiveAt(live, u) && !Blk(a, live[a]).Has(u) {
      var c :| c in live && Blk(c, live[c]).Has(u);
      assert c in live - {a} && Blk(c, (live - {a})[c]).Has(u);
    }
    if LiveAt(live - {a}, u) {
      var c :| c in live - {a} && Blk(c, (live - {a})[c]).Has(u);
      assert c in live && c != a && Blk(c, live[c]).Has(u);
      assert Apart(Blk(c, live[c]), Blk(a, live[a]));
    }
  }

  lemma LiveAdded(live: map<int, nat>, a: int, n: nat, u: int)
    requires a !in live
    ensures LiveAt(live[a := n], u) <==> LiveAt(live, u) || Blk(a, n).Has(u)
  {
    var live' := live[a := n];
    if LiveAt(live, u) {
      var c :| c in live && Blk(c, live[c]).Has(u);
      assert c in live' && Blk(c, live'[c]).Has(u);
    }
    if Blk(a, n).Has(u) {
      assert a in live' && Blk(a, live'[a]).Has(u);
    }
  }

  lemma FreePartition(owned: set<int>, fl: seq<Blk>, live: map<int, nat>, a: int, i: nat)
    requires Partition(owned, fl, live) && a in live && i < |fl|
    ensures Partition(owned, Insert(fl, i, Blk(a, live[a])), live - {a})
  {
    var b := Blk(a, live[a]);
    forall u
      ensures FreeAt(Insert(fl, i, b), u) <==> FreeAt(fl, u) || b.Has(u)
      ensures LiveAt(live - {a}, u) <==> LiveAt(live, u) && !b.Has(u)
      ensures b.Has(u) ==> LiveAt(live, u)
    {
      InsertUnits(fl, i, b, u);
      LiveRemoved(live, a, u);
    }
  }

  lemma CarvePartition(owned: set<int>, fl: seq<Blk>, live: map<int, nat>, i: nat, n: nat)
    requires ListOk(fl) && Partition(owned, fl, live) && 1 <= i < |fl| && 1 <= n <= fl[i].size
    requires forall a :: a in live ==> live[a] >= 1
    ensures CarvedAt(fl, i, n) !in live
    ensures Partition(owned, Carve(fl, i, n), live[CarvedAt(fl, i, n) := n])
  {
    var q := CarvedAt(fl, i, n);
    var got := Blk(q, n);
    forall u
      ensures got.Has(u) ==> FreeAt(fl, u)
      ensures FreeAt(Carve(fl, i, n), u) <==> FreeAt(fl, u) && !got.Has(u)
    {
      CarveUnits(fl, i, n, u);
    }
    assert got.Has(q);
    assert forall a :: a in live ==> Blk(a, live[a]).Has(a);
    forall u ensures LiveAt(live[q := n], u) <==> LiveAt(live, u) || got.Has(u) {
      LiveAdded(live, q, n, u);
    }
    forall a | a in live ensures Apart(Blk(a, live[a]), got) {
      ApartFromLive(fl, live, got, a);
    }
  }

  lemma ApartFromLive(fl: seq<Blk>, live: map<int, nat>, got: Blk, a: int)
    requires a in live && live[a] >= 1 && got.size >= 1
    requires forall u :: got.Has(u) ==> FreeAt(fl, u)
    requires forall u :: !(FreeAt(fl, u) && LiveAt(live, u))
    ensures Apart(Blk(a, live[a]), got)
  {
    var u := if a < got.addr then got.addr else a;
    assert Blk(a, live[a]).Has(u) ==> LiveAt(live, u);
  }

  function Units(addr: int, n: nat): (r: set<int>)
    ensures forall u :: u in r <==> addr <= u < addr + n
  {
    if n == 0 then {} else Units(addr, n - 1) + {addr + n - 1}
  }

  // Live blocks lie within the owned units.
  lemma LiveInBounds(owned: set<int>, fl: seq<Blk>, live: map<int, nat>, base: int, brk: int, a: int)
    requires Partition(owned, fl, live) && Bounds(owned, base, brk) && a in live && live[a] >= 1
    ensures base < a && a + live[a] <= brk && LiveAt(live, a)
  {
    assert Blk(a, live[a]).Has(a) && Blk(a, live[a]).Has(a + live[a] - 1);
    assert LiveAt(live, a) && LiveAt(live, a + live[a] - 1);
  }

  // A chunk from sbrk() counts as a live block until free() takes it in.
  lemma GrowPartition(owned: set<int>, fl: seq<Blk>, live: map<int, nat>, hp: int, n: nat, base: int, brk: int)
    requires Partition(owned, fl, live) && Bounds(owned, base, brk) && hp >= brk
    requires forall a :: a in live ==> live[a] >= 1
    ensures hp !in live
    ensures Partition(owned + Units(hp, n), fl, live[hp := n])
    ensures Bounds(owned + Units(hp, n), base, hp + n)
  {
    forall a | a in live ensures base < a && a + live[a] <= brk {
      LiveInBounds(owned, fl, live, base, brk, a);
    }
    forall u
      ensures LiveAt(live[hp := n], u) <==> LiveAt(live, u) || Blk(hp, n).Has(u)
      ensures FreeAt(fl, u) ==> u < hp
    {
      LiveAdded(live, hp, n, u);
    }
  }

  // (nbytes + sizeof(Header) - 1) / sizeof(Header) + 1
  function UnitsFor(nbytes: nat): (n: nat)
    ensures n >= 1 && (n - 1) * HEADER_BYTES >= nbytes
  {
    (nbytes + HEADER_BYTES - 1) / HEADER_BYTES + 1
  }

  function CoreUnits(n: nat): nat {
    if n < MIN_CORE then MIN_CORE else n
  }

  class Heap {
    const base: int            // address of the static header, below all of the heap
    var mem: Memory
    var freep: int             // 0 until the first malloc()
    ghost var fl: seq<Blk>     // the free list from base on, in address order
    ghost var live: map<int, nat>
    ghost var owned: set<int>  // every unit that sbrk() ever gave out
    ghost var brk: int

    ghost predicate Valid()
      reads this
    {
      HeapOk(mem, freep, fl, live, owned, base, brk)
    }

    constructor (base: int)
      requires base > 0
      ensures Valid() && this.base == base && owned == {} && live == map[]
    {
      this.base := base;
      mem, freep, fl, live, owned, brk := map[], 0, [], map[], {}, base + 1;
    }

    // The search loop of free(): the list block below bp.
    method FindBelow(bp: int, ghost t: nat) returns (p: int)
      requires freep != 0 && ListValid(mem, freep, fl, base) && t < |fl| && fl[0].addr < bp
      requires forall j :: 0 <= j < |fl| ==> (fl[j].addr < bp <==> j <= t) && fl[j].addr != bp
      ensures p == fl[t].addr
    {
      p := freep;
      ghost var k :| 0 <= k < |fl| && fl[k].addr == freep;
      assert NodeAt(mem, fl, k, base);
      while !(bp > p && bp < mem[p].ptr)
        invariant 0 <= k < |fl| && p == fl[k].addr && NodeAt(mem, fl, k, base)
        decreases if k <= t then t - k else |fl| - k + t
      {
        if p >= mem[p].ptr && (bp > p || bp < mem[p].ptr) {
          break;
        }
        p := mem[p].ptr;
        k := if k + 1 < |fl| then k + 1 else 0;
        assert NodeAt(mem, fl, k, base);
      }
    }

    // The rest of free(): link bp in after p, merging with what it touches.
    method Splice(p: int, bp: int)
      requires p in mem && bp in mem && mem[p].ptr in mem
      modifies this`mem, this`freep
      ensures mem == FreeStores(old(mem), p, bp) && freep == p
    {
      var next := mem[p].ptr;
      if bp + mem[bp].size == next {
        mem := mem[bp := Header(mem[next].ptr, mem[bp].size + mem[next].size)];
      } else {
        mem := mem[bp := Header(next, mem[bp].size)];
      }
      if p + mem[p].size == bp {
        mem := mem[p := Header(mem[bp].ptr, mem[p].size + mem[bp].size)];
      } else {
        mem := mem[p := Header(bp, mem[p].size)];
      }
      freep := p;
    }

    // free(ap): the units of the block become free, merged with its
    // neighbours; nothing else changes hands.
    method Free(ap: int) returns (ghost i: nat)
      requires Valid() && freep != 0 && ap - 1 in live
      modifies this
      ensures Valid() && freep != 0 && owned == old(owned) && brk == old(brk)
      ensures live == old(live) - {ap - 1}
      ensures var b := Blk(ap - 1, old(live)[ap - 1]); Between(old(fl), i, b) && fl == Insert(old(fl), i, b)
      ensures freep == old(fl)[i].addr && DataKept(old(mem), mem, live)
    {
      var bp := ap - 1;
      i := FreeGap(mem, freep, fl, live, owned, base, brk, bp);
      var p := FindBelow(bp, i);
      FreeStep(mem, freep, fl, live, owned, base, brk, bp, i);
      FreeKept(mem, fl, live, owned, base, brk, bp, i);
      Splice(p, bp);
      fl := Insert(fl, i, Blk(bp, live[bp]));
      live := live - {bp};
    }

    // A chunk from sbrk() joins the free list; with no memory nothing changes.
    method Morecore(n: nat, sbrk: Option<int>) returns (p: int, ghost i: nat)
      requires Valid() && freep != 0 && (sbrk.Some? ==> sbrk.value >= brk)
      modifies this
      ensures Valid() && freep != 0 && live == old(live)
      ensures sbrk.None? ==> p == 0 && mem == old(mem) && freep == old(freep) && fl == old(fl) && owned == old(owned)
      ensures sbrk.Some? ==> p == freep && owned == old(owned) + Units(sbrk.value, CoreUnits(n))
      ensures sbrk.Some? ==>
        var b := Blk(sbrk.value, CoreUnits(n)); Between(old(fl), i, b) && fl == Insert(old(fl), i, b)
      ensures sbrk.Some? ==> freep == old(fl)[i].addr
      ensures DataKept(old(mem), mem, live)
    {
      var nu := CoreUnits(n);
      if sbrk.None? {
        return 0, 0;
      }
      var hp := sbrk.value;
      GrowStep(mem, freep, fl, live, owned, base, brk, hp, nu);
      BeyondNotLive(fl, live, owned, base, brk, hp);
      StoreKept(mem, live, hp, Header(if hp in mem then mem[hp].ptr else 0, nu));
      mem := mem[hp := Header(if hp in mem then mem[hp].ptr else 0, nu)];
      ghost var grown := mem;
      live, owned, brk := live[hp := nu], owned + Units(hp, nu), hp + nu;
      i := Free(hp + 1);
      DataThen(old(mem), grown, mem, live);
      p := freep;
    }

    // The stores of malloc() once block p, after prevp, is large enough.
    method Take(prevp: int, p: int, n: nat) returns (ap: int)
      requires prevp in mem && p in mem && mem[p].size >= n
      modifies this`mem, this`freep
      ensures mem == MallocStores(old(mem), prevp, p, n) && freep == prevp && ap == p + old(mem)[p].size - n + 1
    {
      var q := p;
      if mem[p].size == n {
        mem := mem[prevp := Header(mem[p].ptr, mem[prevp].size)];
      } else {
        mem := mem[p := Header(mem[p].ptr, mem[p].size - n)];
        q := p + mem[p].size;
        mem := mem[q := Header(if q in mem then mem[q].ptr else 0, n)];
      }
      freep := prevp;
      ap := q + 1;
    }

    // The first call makes base the whole list.
    method Start()
      requires Valid()
      modifies this`mem, this`freep, this`fl
      ensures Valid() && freep != 0 && fl == Started(old(fl), base) && freep == StartedAt(old(freep), base)
      ensures DataKept(old(mem), mem, live)
    {
      if freep == 0 {
        StartStep(mem, fl, live, owned, base, brk);
        StoreKept(mem, live, base, Header(base, 0));
        mem := mem[base := Header(base, 0)];
        freep, fl := base, [Blk(base, 0)];
      }
    }

    // One round of malloc()'s loop: from the block after freep to freep itself.
    method Search(n: nat) returns (found: bool, prevp: int, p: int, ghost k: nat)
      requires freep != 0 && ListValid(mem, freep, fl, base) && n >= 1
      ensures found <==> Fits(fl, n)
      ensures found ==> TakeOk(fl, k, prevp, p, n) && NextFit(fl, freep, k, n)
    {
      prevp := freep;
      ghost var c := 1;
      ghost var f := ScanStart(mem, freep, fl, base, n);
      p := mem[prevp].ptr;
      while true
        invariant Scan(fl, freep, f, c, prevp, p, n)
        decreases |fl| - c
      {
        ScanNode(mem, freep, fl, base, f, c, prevp, p, n);
        if mem[p].size >= n {
          return true, prevp, p, At(f, c, |fl|);
        }
        if p == freep {
          NothingFits(fl, freep, f, c, prevp, p, n);
          return false, prevp, p, 0;
        }
        prevp := p;
        p := mem[p].ptr;
        c := c + 1;
      }
    }

    method TakeBlock(prevp: int, p: int, n: nat, ghost k: nat) returns (ap: int)
      requires Valid() && freep != 0 && TakeOk(fl, k, prevp, p, n) && NextFit(fl, freep, k, n)
      modifies this`mem, this`freep, this`fl, this`live
      ensures Valid() && freep != 0 && ap != 0
      ensures ap - 1 !in old(live) && live == old(live)[ap - 1 := n] && DataKept(old(mem), mem, old(live))
      ensures Cut((old(fl), old(freep)), n, k, (ap, fl, freep))
    {
      MallocStep(mem, freep, fl, live, owned, base, brk, k, n);
      MallocKept(mem, fl, live, owned, base, brk, k, n);
      ap := Take(prevp, p, n);
      fl, live := Carve(fl, k, n), live[ap - 1 := n];
    }

    // malloc(nbytes): sbrk is the answer to the only sbrk() call it can make.
    method Malloc(nbytes: nat, sbrk: Option<int>) returns (ap: int, ghost i: nat, ghost j: nat)
      requires Valid() && (sbrk.Some? ==> sbrk.value >= brk)
      requires CoreUnits(UnitsFor(nbytes)) * HEADER_BYTES < 0x8000_0000
      modifies this
      ensures Valid() && freep != 0
      ensures (UnitsFor(nbytes) - 1) * HEADER_BYTES >= nbytes
      ensures ap == 0 <==> !Fits(old(fl), UnitsFor(nbytes)) && sbrk.None?
      ensures ap == 0 ==> live == old(live) && owned == old(owned) && fl == Started(old(fl), base)
      ensures ap != 0 ==> ap - 1 !in old(live) && live == old(live)[ap - 1 := UnitsFor(nbytes)]
      ensures Fits(old(fl), UnitsFor(nbytes)) ==> owned == old(owned)
      ensures !Fits(old(fl), UnitsFor(nbytes)) && sbrk.Some? ==>
        owned == old(owned) + Units(sbrk.value, CoreUnits(UnitsFor(nbytes)))
      ensures ap != 0 ==>
        Taken(Started(old(fl), base), StartedAt(old(freep), base), UnitsFor(nbytes), sbrk, i, j, ap, fl, freep)
      ensures DataKept(old(mem), mem, old(live))
    {
      var n := UnitsFor(nbytes);
      FitsStarted(fl, base, n);
      Start();
      ghost var mem1 := mem;
      ap, i, j := MallocUnits(n, sbrk);
      DataThen(old(mem), mem1, mem, old(live));
    }

    // The rest of malloc(), once there is a list.
    method MallocUnits(n: nat, sbrk: Option<int>) returns (ap: int, ghost i: nat, ghost j: nat)
      requires Valid() && freep != 0 && n >= 1 && (sbrk.Some? ==> sbrk.value >= brk)
      modifies this
      ensures Valid() && freep != 0 && (ap == 0 <==> !Fits(old(fl), n) && sbrk.None?)
      ensures ap == 0 ==> live == old(live) && owned == old(owned) && fl == old(fl)
      ensures ap != 0 ==> ap - 1 !in old(live) && live == old(live)[ap - 1 := n]
      ensures ap != 0 ==> Taken(old(fl), old(freep), n, sbrk, i, j, ap, fl, freep)
      ensures Fits(old(fl), n) ==> owned == old(owned)
      ensures !Fits(old(fl), n) && sbrk.Some? ==> owned == old(owned) + Units(sbrk.value, CoreUnits(n))
      ensures DataKept(old(mem), mem, old(live))
    {
      var found, prevp, p;
      found, prevp, p, i, j := Obtain(n, sbrk);
      if !found {
        return 0, 0, 0;
      }
      ghost var mem1 := mem;
      ap := TakeBlock(prevp, p, n, i);
      DataThen(old(mem), mem1, mem, old(live));
    }

    // The loop of malloc(): search, and once more with a new chunk if nothing fits.
    method Obtain(n: nat, sbrk: Option<int>) returns (found: bool, prevp: int, p: int, ghost i: nat, ghost j: nat)
      requires Valid() && freep != 0 && n >= 1 && (sbrk.Some? ==> sbrk.value >= brk)
      modifies this
      ensures Valid() && freep != 0 && live == old(live)
      ensures found <==> Fits(old(fl), n) || sbrk.Some?
      ensures found ==> TakeOk(fl, i, prevp, p, n) && NextFit(fl, freep, i, n)
      ensures Fits(old(fl), n) || sbrk.None? ==> owned == old(owned) && fl == old(fl) && freep == old(freep)
      ensures !Fits(old(fl), n) && sbrk.Some? ==> owned == old(owned) + Units(sbrk.value, CoreUnits(n))
      ensures found ==> Gap(old(fl), n, sbrk, j) && (fl, freep) == Supply(old(fl), old(freep), n, sbrk, j)
      ensures DataKept(old(mem), mem, live)
    {
      j := 0;
      found, prevp, p, i := Search(n);
      if !found {
        p, j := Morecore(n, sbrk);
        if p == 0 {
          return false, 0, 0, 0, 0;
        }
        ChunkFits(old(fl), j, Blk(sbrk.value, CoreUnits(n)), n);
        found, prevp, p, i := Search(n);
      }
    }
  }

  // The search has passed c - 1 blocks after freep, all of them too small, and looks at p.
  ghost predicate Scan(fl: seq<Blk>, freep: int, f: nat, c: nat, prevp: int, p: int, n: nat) {
    Passed(fl, freep, f, c, n) && prevp == fl[At(f, c - 1, |fl|)].addr && p == fl[At(f, c, |fl|)].addr
  }

  ghost predicate Passed(fl: seq<Blk>, freep: int, f: nat, c: nat, n: nat) {
    && f < |fl| && fl[f].addr == freep && 1 <= c <= |fl|
    && forall d :: 1 <= d < c ==> fl[At(f, d, |fl|)].size < n
  }

  // p, after prevp, is block k and holds n units.
  predicate TakeOk(fl: seq<Blk>, k: nat, prevp: int, p: int, n: nat) {
    1 <= k < |fl| && prevp == fl[k - 1].addr && p == fl[k].addr && 1 <= n <= fl[k].size
  }

  lemma ScanStart(mem: Memory, freep: int, fl: seq<Blk>, base: int, n: nat) returns (f: nat)
    requires ListValid(mem, freep, fl, base)
    ensures freep in mem && Scan(fl, freep, f, 1, freep, mem[freep].ptr, n)
  {
    f :| f < |fl| && fl[f].addr == freep;
    assert NodeAt(mem, fl, f, base);
  }

  lemma ScanNode(mem: Memory, freep: int, fl: seq<Blk>, base: int, f: nat, c: nat, prevp: int, p: int, n: nat)
    requires ListValid(mem, freep, fl, base) && Scan(fl, freep, f, c, prevp, p, n) && n >= 1
    ensures prevp in mem && p in mem && mem[p].size == fl[At(f, c, |fl|)].size
    ensures mem[p].size >= n ==> TakeOk(fl, At(f, c, |fl|), prevp, p, n)
    ensures mem[p].size < n && p != freep ==> Scan(fl, freep, f, c + 1, p, mem[p].ptr, n)
  {
    assert NodeAt(mem, fl, At(f, c, |fl|), base);
    assert NodeAt(mem, fl, At(f, c - 1, |fl|), base);
  }

  lemma StartStep(mem: Memory, fl: seq<Blk>, live: map<int, nat>, owned: set<int>, base: int, brk: int)
    requires HeapOk(mem, 0, fl, live, owned, base, brk)
    ensures HeapOk(mem[base := Header(base, 0)], base, [Blk(base, 0)], live, owned, base, brk)
  {
    var fl' := [Blk(base, 0)];
    assert forall u :: !FreeAt(fl', u);
    assert NodeAt(mem[base := Header(base, 0)], fl', 0, base);
    assert fl'[0].addr == base;
    forall a | a in live ensures a != base {
      LiveInBounds(owned, fl, live, base, brk, a);
    }
  }

  // Everything malloc() promises, for the stores it makes.
  lemma MallocStep(mem: Memory, freep: int, fl: seq<Blk>, live: map<int, nat>, owned: set<int>, base: int, brk: int,
      k: nat, n: nat)
    requires HeapOk(mem, freep, fl, live, owned, base, brk) && freep != 0 && 1 <= k < |fl| && 1 <= n <= fl[k].size
    ensures fl[k - 1].addr in mem && fl[k].addr in mem && mem[fl[k].addr].size == fl[k].size && fl[k - 1].addr != 0
    ensures CarvedAt(fl, k, n) !in live && CarvedAt(fl, k, n) > 0
    ensures HeapOk(MallocStores(mem, fl[k - 1].addr, fl[k].addr, n), fl[k - 1].addr, Carve(fl, k, n),
                   live[CarvedAt(fl, k, n) := n], owned, base, brk)
  {
    CarveOk(fl, k, n);
    MallocStoresLink(mem, fl, k, n);
    CarvePartition(owned, fl, live, k, n);
    forall a | a in live ensures a != fl[k - 1].addr && a != fl[k].addr {
      LiveNotListed(mem, fl, live, k - 1, owned, base, brk, a);
      LiveNotListed(mem, fl, live, k, owned, base, brk, a);
    }
    assert Carve(fl, k, n)[k - 1].addr == fl[k - 1].addr >= base;
  }

  lemma NothingFits(fl: seq<Blk>, freep: int, f: nat, c: nat, prevp: int, p: int, n: nat)
    requires ListOk(fl) && Scan(fl, freep, f, c, prevp, p, n) && p == freep && fl[At(f, c, |fl|)].size < n
    ensures !Fits(fl, n)
  {
    assert At(f, c, |fl|) == f;
    forall j | 0 <= j < |fl| ensures fl[j].size < n {
      assert j == At(f, if j > f then j - f else j - f + |fl|, |fl|);
    }
  }

  lemma ChunkFits(fl: seq<Blk>, i: nat, b: Blk, n: nat)
    requires i < |fl| && n <= b.size
    ensures Fits(Insert(fl, i, b), n)
  {
    var j := if fl[i].End() == b.addr then i else i + 1;
    assert Insert(fl, i, b)[j].size >= b.size;
  }

  // The index d places after f on the circular list.
  function At(f: nat, d: nat, n: nat): nat {
    if f + d < n then f + d else f + d - n
  }

  ghost predicate Fits(fl: seq<Blk>, n: nat) {
    exists j :: 0 <= j < |fl| && fl[j].size >= n
  }

  // Block i is the first one after freep, round the circle, that is large enough.
  ghost predicate NextFit(fl: seq<Blk>, freep: int, i: nat, n: nat) {
    exists f: nat, c: nat :: Passed(fl, freep, f, c, n) && i == At(f, c, |fl|) && fl[i].size >= n
  }

  // The free list after the first call has set it up.
  function Started(fl: seq<Blk>, base: int): seq<Blk> {
    if fl == [] then [Blk(base, 0)] else fl
  }

  function StartedAt(freep: int, base: int): int {
    if freep == 0 then base else freep
  }

  // There is a block of n units, or sbrk() gives a chunk that goes into gap j.
  ghost predicate Gap(fl: seq<Blk>, n: nat, sbrk: Option<int>, j: nat) {
    Fits(fl, n) || (sbrk.Some? && Between(fl, j, Blk(sbrk.value, CoreUnits(n))))
  }

  // The list that malloc() then takes from, and where its search starts: a new chunk joins
  // the list, and freep is left at the block below it.
  ghost function Supply(fl: seq<Blk>, freep: int, n: nat, sbrk: Option<int>, j: nat): (seq<Blk>, int)
    requires Gap(fl, n, sbrk, j)
  {
    if Fits(fl, n) then (fl, freep) else (Insert(fl, j, Blk(sbrk.value, CoreUnits(n))), fl[j].addr)
  }

  // malloc() of n units has cut block i, the next fit, and has left freep at the block before.
  ghost predicate Taken(fl: seq<Blk>, freep: int, n: nat, sbrk: Option<int>, i: nat, j: nat, ap: int, fl': seq<Blk>,
      freep': int) {
    Gap(fl, n, sbrk, j) && Cut(Supply(fl, freep, n, sbrk, j), n, i, (ap, fl', freep'))
  }

  ghost predicate Cut(from: (seq<Blk>, int), n: nat, i: nat, to: (int, seq<Blk>, int)) {
    && 1 <= i < |from.0| && from.0[i].size >= n && NextFit(from.0, from.1, i, n)
    && to == (CarvedAt(from.0, i, n) + 1, Carve(from.0, i, n), from.0[i - 1].addr)
  }

  lemma FitsStarted(fl: seq<Blk>, base: int, n: nat)
    requires n >= 1
    ensures Fits(Started(fl, base), n) <==> Fits(fl, n)
  {
    if Fits(fl, n) {
      var j :| 0 <= j < |fl| && fl[j].size >= n;
      assert Started(fl, base)[j].size >= n;
    }
  }

  // ------------------------------------------------- what the program stored

  // No unit of a live block has been written to.
  ghost predicate DataKept(mem: Memory, mem': Memory, live: map<int, nat>) {
    forall u {:trigger LiveAt(live, u)} ::
      LiveAt(live, u) ==> (u in mem' <==> u in mem) && (u in mem ==> mem'[u] == mem[u])
  }

  lemma StoreKept(mem: Memory, live: map<int, nat>, x: int, h: Header)
    requires !LiveAt(live, x)
    ensures DataKept(mem, mem[x := h], live)
  {
  }

  lemma DataThen(m0: Memory, m1: Memory, m2: Memory, live: map<int, nat>)
    requires DataKept(m0, m1, live) && DataKept(m1, m2, live)
    ensures DataKept(m0, m2, live)
  {
  }

  lemma BeyondNotLive(fl: seq<Blk>, live: map<int, nat>, owned: set<int>, base: int, brk: int, hp: int)
    requires Partition(owned, fl, live) && Bounds(owned, base, brk) && (hp >= brk || hp <= base)
    ensures !LiveAt(live, hp)
  {
    assert LiveAt(live, hp) ==> hp in owned;
  }

  // A block of the list is nobody's.
  lemma ListedNotLive(fl: seq<Blk>, live: map<int, nat>, owned: set<int>, base: int, brk: int, j: nat)
    requires ListOk(fl) && fl[0].addr == base && Partition(owned, fl, live) && Bounds(owned, base, brk) && j < |fl|
    ensures !LiveAt(live, fl[j].addr)
  {
    if j == 0 {
      BeyondNotLive(fl, live, owned, base, brk, base);
    } else {
      assert fl[j].Has(fl[j].addr) && FreeAt(fl, fl[j].addr);
    }
  }

  lemma FreeKept(mem: Memory, fl: seq<Blk>, live: map<int, nat>, owned: set<int>, base: int, brk: int, bp: int, i: nat)
    requires ListOk(fl) && fl[0].addr == base && Partition(owned, fl, live) && Bounds(owned, base, brk) && i < |fl|
    requires bp in live && live[bp] >= 1 && fl[i].addr in mem && bp in mem && mem[fl[i].addr].ptr in mem
    ensures DataKept(mem, FreeStores(mem, fl[i].addr, bp), live - {bp})
  {
    ListedNotLive(fl, live, owned, base, brk, i);
    LiveRemoved(live, bp, bp);
    LiveRemoved(live, bp, fl[i].addr);
  }

  lemma MallocKept(mem: Memory, fl: seq<Blk>, live: map<int, nat>, owned: set<int>, base: int, brk: int, k: nat, n: nat)
    requires ListOk(fl) && fl[0].addr == base && Partition(owned, fl, live) && Bounds(owned, base, brk)
    requires 1 <= k < |fl| && 1 <= n <= fl[k].size && fl[k - 1].addr in mem && fl[k].addr in mem
    requires mem[fl[k].addr].size == fl[k].size
    ensures DataKept(mem, MallocStores(mem, fl[k - 1].addr, fl[k].addr, n), live)
  {
    ListedNotLive(fl, live, owned, base, brk, k - 1);
    ListedNotLive(fl, live, owned, base, brk, k);
    assert fl[k].Has(CarvedAt(fl, k, n)) && FreeAt(fl, CarvedAt(fl, k, n));
  }

  lemma GrowStep(mem: Memory, freep: int, fl: seq<Blk>, live: map<int, nat>, owned: set<int>, base: int, brk: int,
      hp: int, n: nat)
    requires HeapOk(mem, freep, fl, live, owned, base, brk) && hp >= brk && n >= 1 && freep != 0
    ensures hp !in live && (live[hp := n]) - {hp} == live
    ensures HeapOk(mem[hp := Header(if hp in mem then mem[hp].ptr else 0, n)], freep, fl, live[hp := n],
                   owned + Units(hp, n), base, hp + n)
  {
    GrowPartition(owned, fl, live, hp, n, base, brk);
    var mem' := mem[hp := Header(if hp in mem then mem[hp].ptr else 0, n)];
    forall j | 0 <= j < |fl| ensures fl[j].addr < hp {
      if j > 0 {
        assert fl[j].Has(fl[j].addr) && FreeAt(fl, fl[j].addr);
      }
    }
    ChainFrame(mem, mem', fl, base);
  }

  lemma FreeGap(mem: Memory, freep: int, fl: seq<Blk>, live: map<int, nat>, owned: set<int>, base: int, brk: int,
      bp: int)
      returns (i: nat)
    requires HeapOk(mem, freep, fl, live, owned, base, brk) && freep != 0 && bp in live
    ensures Between(fl, i, Blk(bp, live[bp])) && fl[0].addr < bp
    ensures forall j :: 0 <= j < |fl| ==> (fl[j].addr < bp <==> j <= i) && fl[j].addr != bp
  {
    LiveInBounds(owned, fl, live, base, brk, bp);
    i := FindGap(fl, Blk(bp, live[bp]));
    forall j | 0 <= j < |fl| ensures fl[j].addr != bp {
      LiveNotListed(mem, fl, live, j, owned, base, brk, bp);
    }
  }

  // Everything free() promises, for the stores it makes.
  lemma FreeStep(mem: Memory, freep: int, fl: seq<Blk>, live: map<int, nat>, owned: set<int>, base: int, brk: int,
      bp: int, i: nat)
    requires HeapOk(mem, freep, fl, live, owned, base, brk) && freep != 0 && bp in live
    requires Between(fl, i, Blk(bp, live[bp]))
    ensures bp in mem && mem[bp].size == live[bp] && fl[i].addr in mem && mem[fl[i].addr].ptr in mem && fl[i].addr != 0
    ensures HeapOk(FreeStores(mem, fl[i].addr, bp), fl[i].addr, Insert(fl, i, Blk(bp, live[bp])), live - {bp}, owned, base,
                   brk)
  {
    var b := Blk(bp, live[bp]);
    InsertOk(fl, i, b);
    FreeStoresLink(mem, fl, i, b);
    FreePartition(owned, fl, live, bp, i);
    KeepHeaders(mem, fl, live, bp, i, owned, base, brk);
    assert Insert(fl, i, b)[i].addr == fl[i].addr;
    assert fl[i].addr >= base;
  }

  // free() writes the headers of p and bp only; other live headers stay.
  lemma KeepHeaders(mem: Memory, fl: seq<Blk>, live: map<int, nat>, bp: int, t: nat, owned: set<int>, base: int,
      brk: int)
    requires ListOk(fl) && fl[0].addr == base && Chain(mem, fl, base) && t < |fl| && bp in live && bp in mem
    requires Headers(mem, live) && Partition(owned, fl, live) && Bounds(owned, base, brk)
    ensures fl[t].addr in mem && mem[fl[t].addr].ptr in mem
    ensures Headers(FreeStores(mem, fl[t].addr, bp), live - {bp})
  {
    assert NodeAt(mem, fl, t, base);
    assert NodeAt(mem, fl, if t + 1 < |fl| then t + 1 else 0, base);
    forall a | a in live ensures a != fl[t].addr {
      LiveNotListed(mem, fl, live, t, owned, base, brk, a);
    }
  }

  lemma LiveNotListed(mem: Memory, fl: seq<Blk>, live: map<int, nat>, t: nat, owned: set<int>, base: int, brk: int,
      a: int)
    requires ListOk(fl) && fl[0].addr == base && t < |fl| && a in live
    requires Headers(mem, live) && Partition(owned, fl, live) && Bounds(owned, base, brk)
    ensures a != fl[t].addr
  {
    LiveInBounds(owned, fl, live, base, brk, a);
    assert t > 0 ==> fl[t].Has(fl[t].addr) && FreeAt(fl, fl[t].addr);
  }
}
