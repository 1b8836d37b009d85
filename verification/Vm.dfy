// kalloc(), walk() and the uvm operations on page tables, in place.
module Vm {
  import opened VmSpec

  const PGSIZE := 4096
  const MAXPAGES := 0x400_0000          // pages below MAXVA
  const ALLPAGES := 0x800_0000          // pages that a table has entries for
  const TRAMPOLINE_PAGE := MAXPAGES - 1
  const TRAPFRAME_PAGE := MAXPAGES - 2
  const RAM_PAGES := 32768              // pages between KERNBASE and PHYSTOP
  const PTE_R := 2
  const PTE_W := 4
  const PTE_X := 8
  const PTE_U := 16

  function I(v: nat): nat { v / 0x4_0000 }
  function J(v: nat): nat { v / 512 % 512 }
  function K(v: nat): nat { v % 512 }

  lemma Indices(v: nat)
    requires v < ALLPAGES
    ensures I(v) < ENTRIES && J(v) < ENTRIES && K(v) < ENTRIES
    ensures v == I(v) * 0x4_0000 + J(v) * 512 + K(v)
  {
    var w := v / 512;
    assert v == 512 * w + K(v) && w == 512 * (w / 512) + J(v) && w / 512 == I(v);
  }

  // The entry of page v in page table r.
  function Entry(t: Tables, r: nat, v: nat): Pte {
    Lookup(t, r, I(v), J(v), K(v))
  }

  // Where page table r keeps page v.
  function Slot(r: nat, v: nat): Owner {
    S0(r, I(v), J(v), K(v))
  }

  // Every page table maps what it mapped before.
  ghost predicate SameMap(t: Tables, t': Tables, roots: set<nat>) {
    forall r: nat, i: nat, j: nat, k: nat {:trigger Lookup(t', r, i, j, k)} ::
      r in roots && i < ENTRIES && j < ENTRIES && k < ENTRIES ==> Lookup(t', r, i, j, k) == Lookup(t, r, i, j, k)
  }

  // Only page v of page table r is mapped differently, to e.
  ghost predicate MapUpdated(t: Tables, t': Tables, roots: set<nat>, r: nat, v: nat, e: Pte) {
    forall r': nat, i: nat, j: nat, k: nat {:trigger Lookup(t', r', i, j, k)} ::
      r' in roots && i < ENTRIES && j < ENTRIES && k < ENTRIES ==>
        Lookup(t', r', i, j, k) == if r' == r && i == I(v) && j == J(v) && k == K(v) then e else Lookup(t, r', i, j, k)
  }

  ghost predicate Grew(owner: Owners, owner': Owners) {
    forall f {:trigger f in owner'} :: f in owner ==> f in owner' && owner'[f] == owner[f]
  }

  datatype MapResult = Mapped | NoMemory | Panics

  function Nth(f: nat, x: nat): nat {
    f + x
  }

  ghost predicate InHand(owner: Owners, f: nat) {
    f in owner && owner[f] == Hand
  }

  // Frame f is in somebody's hands or belongs to a page table other than r.
  predicate Outside(owner: Owners, f: nat, r: nat) {
    f in owner && (owner[f].Hand? || owner[f].r != r)
  }

  // Page table r has exchanged frames with the allocator only: nobody else has gained or
  // lost any, and nothing is left in anybody's hands.
  ghost predicate OthersKeep(o: Owners, o': Owners, r: nat) {
    forall f {:trigger Outside(o', f, r)} ::
      (Outside(o, f, r) <==> Outside(o', f, r)) && (Outside(o, f, r) ==> o'[f] == o[f])
  }

  // The pages below the trapframe are page table r's own.
  ghost predicate OwnPages(lent: Slots, r: nat) {
    forall v: nat {:trigger Slot(r, v)} :: v < TRAPFRAME_PAGE ==> Slot(r, v) !in lent
  }

  ghost predicate NoneLent(lent: Slots, r: nat, lo: nat, hi: nat) {
    forall v: nat {:trigger Slot(r, v)} :: lo <= v < hi ==> Slot(r, v) !in lent
  }

  // The frames of its own that page table r has from page lo to page hi.
  ghost function PageFrames(t: Tables, lent: Slots, r: nat, lo: nat, hi: nat): set<nat> {
    set v: nat | lo <= v < hi && Slot(r, v) !in lent && Entry(t, r, v).Leaf? :: Entry(t, r, v).frame
  }

  // Those frames go back to the allocator, or into the caller's hand.
  ghost function GiveUp(o: Owners, fs: set<nat>, doFree: bool): Owners {
    if doFree then o - fs else map f | f in o :: if f in fs then Hand else o[f]
  }

  // Page table r has gained frame f as its page v, as its own if it is not lent, and
  // apart from tables that it needed nothing else has changed.
  ghost predicate Gained(t: Tables, o: Owners, lent: Slots, t': Tables, o': Owners, lent': Slots, roots: set<nat>, r: nat,
      v: nat, f: nat, flags: nat, lend: bool) {
    && MapUpdated(t, t', roots, r, v, Leaf(f, flags)) && OthersKeep(if lend then o else o - {f}, o', r)
    && lent' == (if lend then lent + {Slot(r, v)} else lent - {Slot(r, v)})
    && (!lend ==> f in o' && o'[f] == Slot(r, v))
  }

  predicate Mappable(t: Tables, r: nat, v: nat) {
    v < MAXPAGES && Entry(t, r, v) == Empty
  }

  predicate IsMapped(t: Tables, r: nat, v: nat) {
    v < MAXPAGES && Entry(t, r, v).Leaf?
  }

  ghost predicate AllMapped(t: Tables, r: nat, lo: nat, hi: nat) {
    forall v: nat {:trigger IsMapped(t, r, v)} :: lo <= v < hi ==> IsMapped(t, r, v)
  }

  // Page v of page table r has been unmapped. If it is its own, it has been given up.
  ghost predicate Lost(t: Tables, o: Owners, lent: Slots, t': Tables, o': Owners, lent': Slots, roots: set<nat>, r: nat,
      v: nat, doFree: bool) {
    && MapUpdated(t, t', roots, r, v, Empty) && lent' == lent - {Slot(r, v)} && Entry(t, r, v).Leaf?
    && o' == (if Slot(r, v) in lent then o else GiveUp(o, {Entry(t, r, v).frame}, doFree))
    && (doFree ==> OthersKeep(o, o', r))
  }

  // The frames from f + lo to f + hi are in hand.
  ghost predicate HandFull(owner: Owners, f: nat, lo: nat, hi: nat) {
    forall x: nat {:trigger Nth(f, x)} :: lo <= x < hi ==> InHand(owner, Nth(f, x))
  }

  // What the others have when the first n of those frames have gone to a page table.
  ghost function Rest(o: Owners, f: nat, n: nat, lend: bool): Owners {
    if lend then o else o - Frames(f, f + n)
  }

  class Kernel {
    ghost const ram: set<nat>
    var freelist: seq<nat>      // kmem.freelist
    var tables: Tables          // pages in use as page tables
    var page: map<nat, int>     // the contents of other pages
    ghost var owner: Owners
    ghost var roots: set<nat>
    ghost var lent: Slots       // entries for pages that the page table does not own

    ghost predicate Valid()
      reads this
    {
      Owned(tables, owner, roots, lent) && Partition(freelist, owner, ram) && |ram| <= RAM_PAGES
    }

    // kinit(): freerange() frees the pages from first up to last.
    constructor (first: nat, last: nat)
      requires first <= last <= first + RAM_PAGES
      ensures Valid() && roots == {} && lent == {} && owner == map[] && |freelist| == last - first
      ensures ram == Frames(first, last)
    {
      var list: seq<nat>, p := [], first;
      while p < last
        invariant first <= p <= last && |list| == p - first
        invariant forall i :: 0 <= i < |list| ==> list[i] == p - 1 - i
      {
        list := [p] + list;
        p := p + 1;
      }
      AllFree(list, first, last);
      ram := Frames(first, last);
      freelist, tables, page, owner, roots, lent := list, map[], map[], map[], {}, {};
    }

    // The first free page, or -1.
    method Kalloc() returns (f: int)
      requires Valid()
      modifies this`freelist, this`owner
      ensures Valid()
      ensures f == -1 <==> old(freelist) == []
      ensures f == -1 ==> freelist == old(freelist) && owner == old(owner)
      ensures f != -1 ==>
        f >= 0 && f !in old(owner) && owner == old(owner)[f := Hand] && old(freelist) == [f] + freelist
    {
      if freelist == [] {
        return -1;
      }
      f := freelist[0];
      TakeFrame(tables, owner, roots, lent, freelist, ram);
      owner := owner[f := Hand];
      freelist := freelist[1..];
    }

    // t is the tables as they are, or as they will be once the caller has cleared its entry.
    method Kfree(f: nat, ghost t: Tables)
      requires Owned(t, owner, roots, lent) && Partition(freelist, owner, ram) && f in owner && owner[f] == Hand
      modifies this`freelist, this`owner
      ensures Owned(t, owner, roots, lent) && Partition(freelist, owner, ram)
      ensures freelist == [f] + old(freelist) && owner == old(owner) - {f}
    {
      GiveFrame(t, owner, roots, lent, freelist, ram, f);
      freelist := [f] + freelist;
      owner := owner - {f};
    }

    // The table behind entry i of the root, made if need be; -1 when that fails.
    method DescendMid(r: nat, i: nat, alloc: bool) returns (m: int)
      requires Valid() && r in roots && i < ENTRIES
      modifies this`freelist, this`owner, this`tables
      ensures Valid() && SameMap(old(tables), tables, roots) && Grew(old(owner), owner)
      ensures OthersKeep(old(owner), owner, r)
      ensures m == Mid(tables, r, i)
      ensures m == -1 || old(Mid(tables, r, i)) >= 0 ==>
        tables == old(tables) && owner == old(owner) && freelist == old(freelist)
      ensures m == -1 ==> !alloc || freelist == []
      ensures !alloc ==> tables == old(tables) && owner == old(owner) && freelist == old(freelist)
    {
      RootIs(tables, owner, roots, lent, r);
      assert TableOk(tables, owner, r);
      if tables[r][i].Link? {
        return tables[r][i].frame;
      }
      if !alloc {
        return -1;
      }
      m := Kalloc();
      if m == -1 {
        return;
      }
      HangMid(tables, owner, roots, lent, r, i, m);
      HangMidSame(tables, owner, roots, lent, r, i, m);
      PartitionKeys(freelist, owner, ram, m, S2(r, i));
      tables := Hang(tables, r, i, m);
      owner := owner[m := S2(r, i)];
    }

    method DescendLow(r: nat, i: nat, j: nat, m: nat, alloc: bool) returns (l: int)
      requires Valid() && r in roots && i < ENTRIES && j < ENTRIES && Mid(tables, r, i) == m
      modifies this`freelist, this`owner, this`tables
      ensures Valid() && SameMap(old(tables), tables, roots) && Grew(old(owner), owner)
      ensures OthersKeep(old(owner), owner, r)
      ensures l == Low(tables, r, i, j)
      ensures l == -1 || old(Low(tables, r, i, j)) >= 0 ==>
        tables == old(tables) && owner == old(owner) && freelist == old(freelist)
      ensures l == -1 ==> !alloc || freelist == []
      ensures !alloc ==> tables == old(tables) && owner == old(owner) && freelist == old(freelist)
    {
      MidIs(tables, owner, roots, lent, r, i);
      assert TableOk(tables, owner, m);
      if tables[m][j].Link? {
        return tables[m][j].frame;
      }
      if !alloc {
        return -1;
      }
      l := Kalloc();
      if l == -1 {
        return;
      }
      HangLow(tables, owner, roots, lent, r, i, j, l);
      HangLowSame(tables, owner, roots, lent, r, i, j, l);
      PartitionKeys(freelist, owner, ram, l, S1(r, i, j));
      tables := Hang(tables, m, j, l);
      owner := owner[l := S1(r, i, j)];
    }

    // walk(): the lowest table for page v, or -1. The loop over levels 2 and 1 is
    // written out. Mappings stay as they are, also when memory runs out half way.
    method Walk(r: nat, v: nat, alloc: bool) returns (l: int)
      requires Valid() && r in roots && v < MAXPAGES
      modifies this`freelist, this`owner, this`tables
      ensures Valid() && SameMap(old(tables), tables, roots) && Grew(old(owner), owner)
      ensures OthersKeep(old(owner), owner, r)
      ensures l == Low(tables, r, I(v), J(v))
      ensures l == -1 ==> !alloc || freelist == []
      ensures !alloc ==> tables == old(tables) && owner == old(owner) && freelist == old(freelist)
    {
      Indices(v);
      var m := DescendMid(r, I(v), alloc);
      if m == -1 {
        return -1;
      }
      l := DescendLow(r, I(v), J(v), m, alloc);
    }

    // One round of mappages(): panics exactly when the page is beyond the address space or
    // mapped already, and fails only when a table is needed and no page is free. Then
    // nothing is mapped. A page that is not lent becomes the page table's own.
    method MapPage(r: nat, v: nat, f: nat, flags: nat, ghost lend: bool) returns (res: MapResult)
      requires Valid() && r in roots && (!lend ==> InHand(owner, f))
      modifies this`freelist, this`owner, this`tables, this`lent
      ensures Valid() && (res.Panics? <==> !Mappable(old(tables), r, v))
      ensures res.Mapped? ==>
        Gained(old(tables), old(owner), old(lent), tables, owner, lent, roots, r, v, f, flags, lend)
      ensures !res.Mapped? ==> SameMap(old(tables), tables, roots) && Grew(old(owner), owner)
      ensures !res.Mapped? ==> OthersKeep(old(owner), owner, r) && lent == old(lent)
      ensures res.NoMemory? ==> freelist == []
      ensures old(owner).Keys <= owner.Keys
    {
      if v >= MAXPAGES {
        return Panics;
      }
      Indices(v);
      var l := Walk(r, v, true);
      ghost var t := tables;
      assert Entry(t, r, v) == Entry(old(tables), r, v);
      if l == -1 {
        return NoMemory;
      }
      LowIs(tables, owner, roots, lent, r, I(v), J(v));
      if tables[l][K(v)] != Empty {
        return Panics;
      }
      LeafUpdated(t, owner, roots, lent, r, v, Leaf(f, flags));
      if lend {
        Relend(t, owner, roots, lent, lent + {Slot(r, v)});
        lent := lent + {Slot(r, v)};
        LentLeaf(t, owner, roots, lent, r, I(v), J(v), K(v), Leaf(f, flags));
      } else {
        assert Outside(old(owner), f, r) && Outside(owner, f, r);
        Taken(old(owner), owner, r, f, Slot(r, v));
        Relend(t, owner, roots, lent, lent - {Slot(r, v)});
        lent := lent - {Slot(r, v)};
        MapLeaf(t, owner, roots, lent, r, I(v), J(v), K(v), f, flags);
        PartitionKeys(freelist, owner, ram, f, Slot(r, v));
        owner := owner[f := Slot(r, v)];
      }
      tables := Put(tables, l, K(v), Leaf(f, flags));
      SameThenUpdated(old(tables), t, tables, roots, r, v, Leaf(f, flags));
      return Mapped;
    }

    // mappages() of n pages from v on to the frames from f on. It stops after done pages,
    // which stay mapped, when memory runs out or it panics.
    method Mappages(r: nat, v: nat, n: nat, f: nat, flags: nat, ghost lend: bool) returns (res: MapResult, done: nat)
      requires Valid() && r in roots && (!lend ==> HandFull(owner, f, 0, n))
      modifies this`freelist, this`owner, this`tables, this`lent
      ensures Valid() && done <= n
      ensures Received(old(tables), old(owner), old(lent), tables, owner, lent, roots, r, v, done, n, f, flags, lend)
      ensures res.Mapped? <==> n > 0 && done == n
      ensures res.Panics? <==> n == 0 || (done < n && !Mappable(old(tables), r, v + done))
      ensures res.NoMemory? ==> freelist == []
    {
      done := 0;
      ReceiveStart(tables, owner, lent, roots, r, v, n, f, flags, lend);
      if n == 0 {
        return Panics, 0;
      }
      res := Mapped;
      while done < n
        invariant done <= n && res.Mapped? && Valid()
        invariant Received(old(tables), old(owner), old(lent), tables, owner, lent, roots, r, v, done, n, f, flags, lend)
      {
        ghost var t, o, g := tables, owner, lent;
        NextFree(old(tables), old(owner), old(lent), t, o, g, roots, r, v, done, n, f, flags, lend);
        res := MapPage(r, v + done, f + done, flags, lend);
        if !res.Mapped? {
          ReceiveNone(old(tables), old(owner), old(lent), t, o, tables, owner, g, roots, r, v, done, n, f, flags, lend);
          return;
        }
        ReceiveOne(old(tables), old(owner), old(lent), t, o, g, tables, owner, lent, roots, r, v, done, n, f, flags, lend);
        done := done + 1;
      }
    }

    // One round of uvmunmap(): false is the panic, when the page is not mapped. A page of
    // its own goes back to the allocator or into the caller's hand.
    method UnmapPage(r: nat, v: nat, doFree: bool) returns (ok: bool)
      requires Valid() && r in roots && (doFree ==> Slot(r, v) !in lent)
      modifies this`freelist, this`owner, this`tables, this`lent
      ensures Valid() && (ok <==> IsMapped(old(tables), r, v))
      ensures ok ==> Lost(old(tables), old(owner), old(lent), tables, owner, lent, roots, r, v, doFree)
      ensures ok ==> freelist == (if doFree then [old(Entry(tables, r, v)).frame] else []) + old(freelist)
      ensures !ok ==> owner == old(owner) && freelist == old(freelist) && tables == old(tables) && lent == old(lent)
    {
      if v >= MAXPAGES {
        return false;
      }
      Indices(v);
      var l := Walk(r, v, false);
      if l == -1 {
        return false;
      }
      LowIs(tables, owner, roots, lent, r, I(v), J(v));
      var e := tables[l][K(v)];
      if !e.Leaf? {
        return false;
      }
      LeafUpdated(tables, owner, roots, lent, r, v, Empty);
      if Slot(r, v) in lent {
        LentLeaf(tables, owner, roots, lent, r, I(v), J(v), K(v), Empty);
      } else {
        UnmapLeaf(tables, owner, roots, lent, r, I(v), J(v), K(v), e.frame);
        PartitionKeys(freelist, owner, ram, e.frame, Hand);
        owner := owner[e.frame := Hand];
      }
      tables := Put(tables, l, K(v), Empty);
      assert Lookup(tables, r, I(v), J(v), K(v)) == Empty;
      Relend(tables, owner, roots, lent, lent - {Slot(r, v)});
      lent := lent - {Slot(r, v)};
      if doFree {
        Kfree(e.frame, tables);
      }
      return true;
    }

    // uvmunmap(): n pages from page v0 on lose their mappings; false is the panic.
    method Uvmunmap(r: nat, v0: nat, n: nat, doFree: bool) returns (ok: bool)
      requires Valid() && r in roots && (doFree ==> NoneLent(lent, r, v0, v0 + n))
      modifies this`freelist, this`owner, this`tables, this`lent
      ensures Valid()
      ensures ok <==> AllMapped(old(tables), r, v0, v0 + n)
      ensures ok ==> GaveUp(old(tables), old(owner), old(lent), tables, owner, lent, roots, r, v0, v0 + n, doFree)
      ensures ok ==> |freelist| == |old(freelist)| + if doFree then n else 0
      ensures ok && !doFree ==> freelist == old(freelist)
    {
      var a := v0;
      GaveNone(tables, owner, lent, roots, r, v0, doFree);
      while a < v0 + n
        invariant v0 <= a <= v0 + n && Valid() && |freelist| == |old(freelist)| + if doFree then a - v0 else 0
        invariant !doFree ==> freelist == old(freelist)
        invariant GaveUp(old(tables), old(owner), old(lent), tables, owner, lent, roots, r, v0, a, doFree)
      {
        ghost var t, o, g := tables, owner, lent;
        StillThere(old(tables), old(owner), old(lent), t, o, g, roots, r, v0, a, v0 + n, doFree);
        ok := UnmapPage(r, a, doFree);
        if !ok {
          return;
        }
        GiveOne(old(tables), old(owner), old(lent), t, o, g, tables, owner, lent, roots, r, v0, a, doFree);
        a := a + 1;
      }
      return true;
    }

    // uvmdealloc() from oldsz down to newsz, both in bytes; not ok is the panic in uvmunmap().
    // The number of pages must fit an int.
    method Uvmdealloc(r: nat, oldsz: nat, newsz: nat) returns (sz: nat, ok: bool)
      requires Valid() && r in roots && Pages(oldsz) < 0x8000_0000 && NoneLent(lent, r, Pages(newsz), Pages(oldsz))
      modifies this`freelist, this`owner, this`tables, this`lent
      ensures Valid()
      ensures ok <==> AllMapped(old(tables), r, Pages(newsz), Pages(oldsz))
      ensures ok ==> SameBut(old(tables), tables, roots, r, Pages(newsz), Pages(oldsz)) && lent == old(lent)
      ensures ok ==> sz == if newsz >= oldsz then oldsz else newsz
      ensures ok ==> forall v :: Pages(newsz) <= v < Pages(oldsz) ==> Entry(tables, r, v) == Empty
      ensures ok ==>
        |freelist| == |old(freelist)| + if Pages(newsz) < Pages(oldsz) then Pages(oldsz) - Pages(newsz) else 0
      ensures ok ==> owner == old(owner) - PageFrames(old(tables), old(lent), r, Pages(newsz), Pages(oldsz))
      ensures ok ==> OthersKeep(old(owner), owner, r)
    {
      if newsz >= oldsz {
        PagesMonotone(oldsz, newsz);
        return oldsz, true;
      }
      ok := true;
      if Pages(newsz) < Pages(oldsz) {
        ok := Uvmunmap(r, Pages(newsz), Pages(oldsz) - Pages(newsz), true);
      }
      return newsz, ok;
    }

    // One round of uvmalloc(): a zeroed page is mapped at v, or nothing changes hands.
    method AllocPage(r: nat, v: nat, flags: nat) returns (ok: bool, ghost f: nat)
      requires Valid() && r in roots && v <= TRAPFRAME_PAGE && UserPages(tables, r, v) && OwnPages(lent, r)
      modifies this`freelist, this`owner, this`tables, this`page, this`lent
      ensures Valid() && OthersKeep(old(owner), owner, r) && lent == old(lent)
      ensures ok ==>
        v < RAM_PAGES && MapUpdated(old(tables), tables, roots, r, v, Leaf(f, flags)) && page == old(page)[f := 0]
      ensures ok ==> f !in old(owner)
      ensures !ok ==> SameMap(old(tables), tables, roots)
      ensures old(owner).Keys <= owner.Keys && PagesKept(old(owner), old(page), page)
    {
      f := 0;
      var mem := Kalloc();
      if mem == -1 {
        return false, 0;
      }
      RamBound(tables, owner, roots, lent, freelist, ram, r, v, mem);
      page := page[mem := 0];
      f := mem;
      ghost var o := owner;
      assert Slot(r, v) !in lent && o - {mem} == old(owner);
      var res := MapPage(r, v, mem, flags, false);
      assert !res.Panics?;
      ok := res.Mapped?;
      if !ok {
        GivenBack(old(owner), o, owner, r, mem);
        Kfree(mem, tables);
      }
    }

    // The pages from v0 to v, which t0 did not map, are given back.
    method Rollback(r: nat, v0: nat, v: nat, ghost t0: Tables)
      requires Valid() && r in roots && v0 <= v <= TRAPFRAME_PAGE && SameBut(t0, tables, roots, r, v0, v)
      requires forall w :: v0 <= w < v ==> Entry(tables, r, w).Leaf? && Entry(t0, r, w) == Empty
      requires OwnPages(lent, r)
      modifies this`freelist, this`owner, this`tables, this`lent
      ensures Valid() && SameBut(t0, tables, roots, r, 0, 0) && OthersKeep(old(owner), owner, r) && lent == old(lent)
    {
      ghost var t := tables;
      var sz, ok := Uvmdealloc(r, v * PGSIZE, v0 * PGSIZE);
      assert ok;
      Restored(t0, t, tables, roots, r, v0, v);
    }

    // uvmalloc() from oldsz up to newsz: all the pages, or the old mappings.
    method Uvmalloc(r: nat, oldsz: nat, newsz: nat, xperm: nat) returns (sz: nat, ghost ok: bool)
      requires Valid() && r in roots && Pages(oldsz) <= TRAPFRAME_PAGE && UserPages(tables, r, Pages(oldsz))
      requires newsz < 0x1_0000_0000_0000_0000 && OwnPages(lent, r)
      modifies this`freelist, this`owner, this`tables, this`page, this`lent
      ensures Valid() && OthersKeep(old(owner), owner, r) && lent == old(lent)
      ensures newsz < oldsz ==>
        ok && sz == oldsz && tables == old(tables) && owner == old(owner) && freelist == old(freelist)
      ensures newsz >= oldsz && ok ==>
        sz == newsz && Pages(newsz) <= TRAPFRAME_PAGE && UserPages(tables, r, Pages(newsz))
      ensures newsz >= oldsz && ok ==> SameBut(old(tables), tables, roots, r, Pages(oldsz), Pages(newsz))
      ensures newsz >= oldsz && ok ==> NewPages(tables, r, Pages(oldsz), Pages(newsz), PTE_R + PTE_U + xperm)
      ensures newsz >= oldsz && ok ==> ZeroPages(tables, page, r, Pages(oldsz), Pages(newsz))
      ensures PagesKept(old(owner), old(page), page)
      ensures !ok ==> sz == 0 && SameBut(old(tables), tables, roots, r, 0, 0)
    {
      if newsz < oldsz {
        return oldsz, true;
      }
      var v0 := Pages(oldsz);
      var v := v0;
      while v * PGSIZE < newsz
        invariant v0 <= v <= Pages(newsz) && v <= TRAPFRAME_PAGE && Valid() && UserPages(tables, r, v)
        invariant SameBut(old(tables), tables, roots, r, v0, v) && NewPages(tables, r, v0, v, PTE_R + PTE_U + xperm)
        invariant OthersKeep(old(owner), owner, r) && lent == old(lent)
        invariant ZeroPages(tables, page, r, v0, v)
        invariant old(owner).Keys <= owner.Keys && PagesKept(old(owner), old(page), page)
        decreases newsz - v * PGSIZE
      {
        ghost var t, o, pg := tables, owner, page;
        var more;
        ghost var f;
        more, f := AllocPage(r, v, PTE_R + PTE_U + xperm);
        OthersThen(old(owner), o, owner, r);
        KeptThen(old(owner), o, old(page), pg, page);
        if !more {
          SameMapBut(old(tables), t, tables, roots, r, v0, v);
          o := owner;
          Rollback(r, v0, v, old(tables));
          OthersThen(old(owner), o, owner, r);
          return 0, false;
        }
        OneMore(old(tables), t, tables, roots, r, v0, v, f, PTE_R + PTE_U + xperm);
        ZeroMore(t, pg, tables, o, roots, lent, r, v0, v, f, PTE_R + PTE_U + xperm);
        v := v + 1;
      }
      return newsz, true;
    }

    // uvmcreate(): a page table that maps nothing.
    method Uvmcreate() returns (r: int)
      requires Valid()
      modifies this`freelist, this`owner, this`tables, this`roots, this`lent
      ensures Valid() && (r == -1 <==> old(freelist) == [])
      ensures r == -1 ==> tables == old(tables) && roots == old(roots) && lent == old(lent) && owner == old(owner)
      ensures r == -1 ==> freelist == old(freelist)
      ensures r != -1 ==> r >= 0 && r !in old(roots) && roots == old(roots) + {r} && owner == old(owner)[r := Root(r)]
      ensures r != -1 ==> r !in old(owner) && lent == Without(old(lent), r)
      ensures r != -1 ==> NoLeaf(tables, r)
      ensures r != -1 ==> SameMap(old(tables), tables, old(roots))
    {
      r := Kalloc();
      if r == -1 {
        return;
      }
      AddRoot(tables, owner, roots, lent, r);
      NewRoot(tables, owner, roots, lent, r);
      PartitionKeys(freelist, owner, ram, r, Root(r));
      tables := tables[r := ZeroTable(ENTRIES)];
      owner := owner[r := Root(r)];
      roots := roots + {r};
      NothingHeld(tables, owner, roots, lent, r);
      lent := Without(lent, r);
    }

    // One round of uvmcopy(): page v of the child is a copy of the parent's.
    method CopyPage(parent: nat, child: nat, v: nat) returns (ok: bool, ghost f: nat)
      requires Valid() && parent in roots && child in roots && v < TRAPFRAME_PAGE
      requires Entry(tables, parent, v).Leaf? && Entry(tables, child, v) == Empty && OwnPages(lent, child)
      modifies this`freelist, this`owner, this`tables, this`page, this`lent
      ensures Valid() && OthersKeep(old(owner), owner, child) && lent == old(lent)
      ensures ok ==> MapUpdated(old(tables), tables, roots, child, v, Leaf(f, old(Entry(tables, parent, v)).flags))
      ensures ok ==> f !in old(owner) && page == old(page)[f := Content(old(page), old(Entry(tables, parent, v)).frame)]
      ensures !ok ==> SameMap(old(tables), tables, roots)
      ensures old(owner).Keys <= owner.Keys && PagesKept(old(owner), old(page), page)
    {
      f := 0;
      var l := Walk(parent, v, false);
      Indices(v);
      LowIs(tables, owner, roots, lent, parent, I(v), J(v));
      var e := tables[l][K(v)];
      var mem := Kalloc();
      if mem == -1 {
        return false, 0;
      }
      page := page[mem := Content(page, e.frame)];
      f := mem;
      ghost var o := owner;
      assert Slot(child, v) !in lent && o - {mem} == old(owner);
      var res := MapPage(child, v, mem, e.flags, false);
      assert !res.Panics?;
      ok := res.Mapped?;
      if !ok {
        GivenBack(old(owner), o, owner, child, mem);
        Kfree(mem, tables);
      }
    }

    // uvmcopy(): the child gets a copy of every page, or the mappings it had.
    method Uvmcopy(parent: nat, child: nat, sz: nat) returns (ok: bool)
      requires Valid() && parent in roots && child in roots && parent != child && Pages(sz) <= TRAPFRAME_PAGE
      requires (forall v: nat :: v < Pages(sz) ==> Entry(tables, parent, v).Leaf?) && UserPages(tables, child, 0)
      requires OwnPages(lent, parent) && OwnPages(lent, child)
      modifies this`freelist, this`owner, this`tables, this`page, this`lent
      ensures Valid() && OthersKeep(old(owner), owner, child) && lent == old(lent)
      ensures ok ==> SameBut(old(tables), tables, roots, child, 0, Pages(sz))
      ensures ok ==> Copied(old(tables), old(page), tables, page, parent, child, Pages(sz))
      ensures PagesKept(old(owner), old(page), page)
      ensures !ok ==> SameBut(old(tables), tables, roots, child, 0, 0)
    {
      var v := 0;
      while v * PGSIZE < sz
        invariant v <= Pages(sz) && Valid() && SameBut(old(tables), tables, roots, child, 0, v)
        invariant Copied(old(tables), old(page), tables, page, parent, child, v)
        invariant Kept(old(tables), old(page), tables, page, parent, Pages(sz))
        invariant old(owner).Keys <= owner.Keys && PagesKept(old(owner), old(page), page)
        invariant OthersKeep(old(owner), owner, child) && lent == old(lent)
        decreases sz - v * PGSIZE
      {
        ghost var t, o, pg := tables, owner, page;
        var more;
        ghost var f;
        more, f := CopyPage(parent, child, v);
        OthersThen(old(owner), o, owner, child);
        KeptThen(old(owner), o, old(page), pg, page);
        if !more {
          SameMapBut(old(tables), t, tables, roots, child, 0, v);
          o := owner;
          Rollback(child, 0, v, old(tables));
          OthersThen(old(owner), o, owner, child);
          return false;
        }
        CopyStep(old(tables), old(page), t, pg, tables, page, o, roots, lent, parent, child, v, Pages(sz), f);
        v := v + 1;
      }
      return true;
    }

    // freewalk() on a lowest table. The entry above is left for the caller to clear.
    method FreewalkLow(r: nat, i: nat, j: nat)
      requires Valid() && r in roots && i < ENTRIES && j < ENTRIES && Low(tables, r, i, j) >= 0 && NoLeaf(tables, r)
      modifies this`freelist, this`owner, this`tables
      ensures tables == old(tables) - {old(Low(tables, r, i, j))} && r in tables && OthersKeep(old(owner), owner, r)
      ensures var m := old(Mid(tables, r, i));
              && m >= 0 && m in tables && |tables[m]| == ENTRIES
              && Owned(Put(tables, m, j, Empty), owner, roots, lent) && Partition(freelist, owner, ram)
              && SameMap(old(tables), Put(tables, m, j, Empty), roots) && Mid(Put(tables, m, j, Empty), r, i) == m
    {
      var m, l := Mid(tables, r, i), Low(tables, r, i, j);
      RootIs(tables, owner, roots, lent, r);
      MidIs(tables, owner, roots, lent, r, i);
      LowIs(tables, owner, roots, lent, r, i, j);
      for k := 0 to ENTRIES
        invariant forall k' :: 0 <= k' < k ==> tables[l][k'] == Empty
      {
        assert Lookup(tables, r, i, j, k) == Empty;
      }
      UnhangLow(tables, owner, roots, lent, r, i, j);
      UnhangLowSame(tables, owner, roots, lent, r, i, j);
      PartitionKeys(freelist, owner, ram, l, Hand);
      ghost var g := Unhang(tables, m, j, l);
      owner := owner[l := Hand];
      Kfree(l, g);
      tables := tables - {l};
      assert Put(tables, m, j, Empty) == g;
    }

    // freewalk() on the table behind entry i of the root.
    method FreewalkMid(r: nat, i: nat)
      requires Valid() && r in roots && i < ENTRIES && Mid(tables, r, i) >= 0 && NoLeaf(tables, r)
      modifies this`freelist, this`owner, this`tables
      ensures r in tables && |tables[r]| == ENTRIES && tables[r] == old(tables)[r] && OthersKeep(old(owner), owner, r)
      ensures Owned(Put(tables, r, i, Empty), owner, roots, lent) && Partition(freelist, owner, ram)
      ensures SameMap(old(tables), Put(tables, r, i, Empty), roots)
    {
      var m := Mid(tables, r, i);
      RootIs(tables, owner, roots, lent, r);
      MidIs(tables, owner, roots, lent, r, i);
      for j := 0 to ENTRIES
        invariant Valid() && SameMap(old(tables), tables, roots) && Mid(tables, r, i) == m && m != r
        invariant m in tables && |tables[m]| == ENTRIES && r in tables && tables[r] == old(tables)[r]
        invariant (forall j' :: 0 <= j' < j ==> tables[m][j'] == Empty) && OthersKeep(old(owner), owner, r)
      {
        MidIs(tables, owner, roots, lent, r, i);
        assert TableOk(tables, owner, m);
        if tables[m][j].Link? {
          ghost var t, o := tables, owner;
          SameNoLeaf(old(tables), t, roots, r);
          FreewalkLow(r, i, j);
          OthersThen(old(owner), o, owner, r);
          tables := Put(tables, m, j, Empty);
          SameSame(old(tables), t, tables, roots);
        }
      }
      ghost var t, o := tables, owner;
      FreeMid(r, i);
      OthersThen(old(owner), o, owner, r);
      SameSame(old(tables), t, Put(tables, r, i, Empty), roots);
    }

    // The last line of freewalk() for that table.
    method FreeMid(r: nat, i: nat)
      requires Valid() && r in roots && i < ENTRIES && Mid(tables, r, i) >= 0 && AllEmpty(tables, Mid(tables, r, i))
      modifies this`freelist, this`owner, this`tables
      ensures tables == old(tables) - {old(Mid(tables, r, i))} && r in tables && |tables[r]| == ENTRIES
      ensures OthersKeep(old(owner), owner, r)
      ensures Owned(Put(tables, r, i, Empty), owner, roots, lent) && Partition(freelist, owner, ram)
      ensures SameMap(old(tables), Put(tables, r, i, Empty), roots)
    {
      var m := Mid(tables, r, i);
      RootIs(tables, owner, roots, lent, r);
      MidIs(tables, owner, roots, lent, r, i);
      UnhangMid(tables, owner, roots, lent, r, i);
      UnhangMidSame(tables, owner, roots, lent, r, i);
      PartitionKeys(freelist, owner, ram, m, Hand);
      ghost var g := Unhang(tables, r, i, m);
      owner := owner[m := Hand];
      Kfree(m, g);
      tables := tables - {m};
      assert Put(tables, r, i, Empty) == g;
    }

    // freewalk() on the root of a page table without mappings: every table page
    // goes back to the allocator.
    method Freewalk(r: nat)
      requires Valid() && r in roots && NoLeaf(tables, r)
      modifies this`freelist, this`owner, this`tables, this`roots
      ensures Valid() && roots == old(roots) - {r} && SameMap(old(tables), tables, roots)
      ensures OthersKeep(old(owner), owner, r) && AllReturned(old(freelist), old(owner), freelist, owner, r)
    {
      RootIs(tables, owner, roots, lent, r);
      for i := 0 to ENTRIES
        invariant Valid() && SameMap(old(tables), tables, roots) && roots == old(roots)
        invariant OthersKeep(old(owner), owner, r)
        invariant r in tables && |tables[r]| == ENTRIES && forall i' :: 0 <= i' < i ==> tables[r][i'] == Empty
      {
        assert TableOk(tables, owner, r);
        RootIs(tables, owner, roots, lent, r);
        if tables[r][i].Link? {
          ghost var t, o := tables, owner;
          SameNoLeaf(old(tables), t, roots, r);
          FreewalkMid(r, i);
          OthersThen(old(owner), o, owner, r);
          tables := Put(tables, r, i, Empty);
          SameSame(old(tables), t, tables, roots);
        }
      }
      DropRoot(tables, owner, roots, lent, r);
      DropRootSame(tables, owner, roots, lent, r);
      PartitionKeys(freelist, owner, ram, r, Hand);
      ghost var t, o := tables, owner;
      owner := owner[r := Hand];
      roots := roots - {r};
      tables := tables - {r};
      SameSub(old(tables), t, tables, roots + {r}, roots);
      Kfree(r, tables);
      NoneOwned(tables, owner, roots, lent, r);
      OthersThen(old(owner), o, owner, r);
      Conserved(old(freelist), old(owner), freelist, owner, ram, r);
    }

    // uvmfree(): the mapped pages, then the tables, all go back to the allocator.
    method Uvmfree(r: nat, sz: nat)
      requires Valid() && r in roots && Pages(sz) <= TRAPFRAME_PAGE && OwnPages(lent, r)
      requires forall v: nat :: v < ALLPAGES ==>
        if v < Pages(sz) then Entry(tables, r, v).Leaf? else Entry(tables, r, v) == Empty
      modifies this`freelist, this`owner, this`tables, this`roots, this`lent
      ensures Valid() && roots == old(roots) - {r} && lent == old(lent)
      ensures forall r': nat, v: nat :: r' in roots && v < ALLPAGES ==> Entry(tables, r', v) == Entry(old(tables), r', v)
      ensures OthersKeep(old(owner), owner, r) && AllReturned(old(freelist), old(owner), freelist, owner, r)
    {
      if sz > 0 {
        var ok := Uvmunmap(r, 0, Pages(sz), true);
        assert ok;
      }
      ghost var t, o := tables, owner;
      AllGone(t, r);
      Freewalk(r);
      OthersThen(old(owner), o, owner, r);
      forall f | f in owner ensures Outside(owner, f, r) {
        assert Outside(o, f, r);
      }
      Conserved(old(freelist), old(owner), freelist, owner, ram, r);
      forall r': nat, v: nat | r' in roots && v < ALLPAGES ensures Entry(tables, r', v) == Entry(old(tables), r', v) {
        Indices(v);
        assert Entry(t, r', v) == Entry(old(tables), r', v);
      }
    }

    // A new page table without mappings is taken down again, and all is as it was.
    method Discard(r: nat, ghost o0: Owners, ghost t0: Tables)
      requires Valid() && r in roots && Shows(tables, r, 0, Empty, Empty) && OwnPages(lent, r)
      requires OthersKeep(o0, owner, r) && (forall f :: f in o0 ==> Outside(o0, f, r))
      requires Elsewhere(t0, tables, roots - {r})
      modifies this`freelist, this`owner, this`tables, this`roots, this`lent
      ensures Valid() && roots == old(roots) - {r} && owner == o0 && Elsewhere(t0, tables, roots)
    {
      ghost var t, o := tables, owner;
      Uvmfree(r, 0);
      forall f ensures (f in owner <==> f in o0) && (f in owner ==> owner[f] == o0[f]) {
        assert Outside(o0, f, r) <==> Outside(o, f, r);
      }
      assert owner == o0;
      ElsewhereThen(t0, t, tables, roots);
    }

    // The second half of proc_pagetable().
    method MapTrapframe(r: nat, trampoline: nat, trapframe: nat, ghost o0: Owners, ghost t0: Tables) returns (ok: bool)
      requires Valid() && r in roots && Shows(tables, r, 0, Leaf(trampoline, PTE_R + PTE_X), Empty) && OwnPages(lent, r)
      requires Slot(r, TRAMPOLINE_PAGE) in lent && Elsewhere(t0, tables, roots - {r})
      requires OthersKeep(o0, owner, r) && (forall f :: f in o0 ==> Outside(o0, f, r))
      modifies this`freelist, this`owner, this`tables, this`roots, this`lent
      ensures Valid() && Elsewhere(t0, tables, old(roots) - {r})
      ensures !ok ==> roots == old(roots) - {r} && owner == o0
      ensures ok ==>
        roots == old(roots) && OthersKeep(o0, owner, r) && Process(tables, lent, r, 0, trampoline, trapframe)
    {
      ghost var t, o, a := tables, owner, Leaf(trampoline, PTE_R + PTE_X);
      HighSlots(r, TRAPFRAME_PAGE);
      HighSlots(r, TRAMPOLINE_PAGE);
      var res := MapPage(r, TRAPFRAME_PAGE, trapframe, PTE_R + PTE_W, true);
      OthersThen(o0, o, owner, r);
      if res.Mapped? {
        UpdateShows(t, tables, roots, r, 0, a, Empty, TRAPFRAME_PAGE, Leaf(trapframe, PTE_R + PTE_W));
        ElsewhereThen(t0, t, tables, roots - {r});
        return true;
      }
      SameShows(t, tables, roots, r, 0, a, Empty);
      SameElsewhere(t, tables, roots, roots - {r});
      ElsewhereThen(t0, t, tables, roots - {r});
      t := tables;
      ok := UnmapPage(r, TRAMPOLINE_PAGE, false);
      UpdateShows(t, tables, roots, r, 0, a, Empty, TRAMPOLINE_PAGE, Empty);
      ElsewhereThen(t0, t, tables, roots - {r});
      Discard(r, o0, t0);
      return false;
    }

    // proc_pagetable(): a page table with the trampoline and the trapframe, which stay the
    // property of others. When memory runs out, all that was taken goes back.
    method ProcPagetable(trampoline: nat, trapframe: nat) returns (r: int)
      requires Valid()
      modifies this`freelist, this`owner, this`tables, this`roots, this`lent
      ensures Valid() && Elsewhere(old(tables), tables, old(roots))
      ensures r == -1 ==> roots == old(roots) && owner == old(owner) && |freelist| == |old(freelist)|
      ensures r != -1 ==> r >= 0 && r !in old(roots) && roots == old(roots) + {r} && OthersKeep(old(owner), owner, r)
      ensures r != -1 ==> Process(tables, lent, r, 0, trampoline, trapframe)
    {
      r := Uvmcreate();
      if r == -1 {
        return;
      }
      ghost var t, o := tables, owner;
      FreeOrOwned(old(freelist), old(owner), ram);
      NoneOwned(old(tables), old(owner), old(roots), old(lent), r);
      BlankShows(t, r);
      SameElsewhere(old(tables), t, old(roots), old(roots));
      HighSlots(r, TRAMPOLINE_PAGE);
      var res := MapPage(r, TRAMPOLINE_PAGE, trampoline, PTE_R + PTE_X, true);
      OthersThen(old(owner), o, owner, r);
      if !res.Mapped? {
        SameShows(t, tables, roots, r, 0, Empty, Empty);
        SameElsewhere(t, tables, roots, old(roots));
        ElsewhereThen(old(tables), t, tables, old(roots));
        Discard(r, old(owner), old(tables));
        FreeOrOwned(freelist, owner, ram);
        return -1;
      }
      UpdateShows(t, tables, roots, r, 0, Empty, Empty, TRAMPOLINE_PAGE, Leaf(trampoline, PTE_R + PTE_X));
      ElsewhereThen(old(tables), t, tables, old(roots));
      var ok := MapTrapframe(r, trampoline, trapframe, old(owner), old(tables));
      if !ok {
        FreeOrOwned(freelist, owner, ram);
        return -1;
      }
    }

    // proc_freepagetable(): every frame of the page table goes back, and the trampoline and
    // the trapframe stay where they are.
    method ProcFreepagetable(r: nat, sz: nat, ghost trampoline: nat, ghost trapframe: nat)
      requires Valid() && r in roots && Pages(sz) <= TRAPFRAME_PAGE
      requires Process(tables, lent, r, Pages(sz), trampoline, trapframe)
      modifies this`freelist, this`owner, this`tables, this`roots, this`lent
      ensures Valid() && roots == old(roots) - {r} && Elsewhere(old(tables), tables, roots)
      ensures OthersKeep(old(owner), owner, r) && AllReturned(old(freelist), old(owner), freelist, owner, r)
    {
      ghost var t, n, b := tables, Pages(sz), Leaf(trapframe, PTE_R + PTE_W);
      HighSlots(r, TRAPFRAME_PAGE);
      HighSlots(r, TRAMPOLINE_PAGE);
      var ok := UnmapPage(r, TRAMPOLINE_PAGE, false);
      UpdateShows(t, tables, roots, r, n, Leaf(trampoline, PTE_R + PTE_X), b, TRAMPOLINE_PAGE, Empty);
      ghost var t1 := tables;
      ok := UnmapPage(r, TRAPFRAME_PAGE, false);
      UpdateShows(t1, tables, roots, r, n, Empty, b, TRAPFRAME_PAGE, Empty);
      ElsewhereThen(t, t1, tables, roots - {r});
      t1 := tables;
      Uvmfree(r, sz);
      ElsewhereThen(t, t1, tables, roots);
    }
  }

  // ------------------------------------------------------- a process's page table

  // Page table r maps its first n pages, the trampoline as a and the trapframe as b.
  ghost predicate Shows(t: Tables, r: nat, n: nat, a: Pte, b: Pte) {
    forall v: nat {:trigger Entry(t, r, v)} :: v < ALLPAGES ==>
      if v == TRAMPOLINE_PAGE then Entry(t, r, v) == a
      else if v == TRAPFRAME_PAGE then Entry(t, r, v) == b
      else if v < n then Entry(t, r, v).Leaf? else Entry(t, r, v) == Empty
  }

  // The page table of a process with n pages. Only those are its own.
  ghost predicate Process(t: Tables, lent: Slots, r: nat, n: nat, trampoline: nat, trapframe: nat) {
    && Shows(t, r, n, Leaf(trampoline, PTE_R + PTE_X), Leaf(trapframe, PTE_R + PTE_W)) && OwnPages(lent, r)
    && Slot(r, TRAMPOLINE_PAGE) in lent && Slot(r, TRAPFRAME_PAGE) in lent
  }

  // These page tables map what they mapped before.
  ghost predicate Elsewhere(t: Tables, t': Tables, roots: set<nat>) {
    forall r: nat, v: nat {:trigger Entry(t', r, v)} :: r in roots && v < ALLPAGES ==> Entry(t', r, v) == Entry(t, r, v)
  }

  lemma ElsewhereThen(t0: Tables, t: Tables, t': Tables, roots: set<nat>)
    requires Elsewhere(t0, t, roots) && Elsewhere(t, t', roots)
    ensures Elsewhere(t0, t', roots)
  {
    forall r: nat, v: nat | r in roots && v < ALLPAGES ensures Entry(t', r, v) == Entry(t0, r, v) {
      assert Entry(t, r, v) == Entry(t0, r, v);
    }
  }

  lemma SameShows(t: Tables, t': Tables, roots: set<nat>, r: nat, n: nat, a: Pte, b: Pte)
    requires SameMap(t, t', roots) && r in roots && Shows(t, r, n, a, b)
    ensures Shows(t', r, n, a, b)
  {
    forall v: nat | v < ALLPAGES ensures Entry(t', r, v) == Entry(t, r, v) {
      Indices(v);
    }
  }

  lemma SameElsewhere(t: Tables, t': Tables, roots: set<nat>, some: set<nat>)
    requires SameMap(t, t', roots) && some <= roots
    ensures Elsewhere(t, t', some)
  {
    forall r: nat, v: nat | r in some && v < ALLPAGES ensures Entry(t', r, v) == Entry(t, r, v) {
      Indices(v);
    }
  }

  lemma BlankShows(t: Tables, r: nat)
    requires NoLeaf(t, r)
    ensures Shows(t, r, 0, Empty, Empty)
  {
    forall v: nat | v < ALLPAGES ensures Entry(t, r, v) == Empty {
      Indices(v);
    }
  }

  lemma UpdateShows(t: Tables, t': Tables, roots: set<nat>, r: nat, n: nat, a: Pte, b: Pte, v: nat, e: Pte)
    requires MapUpdated(t, t', roots, r, v, e) && r in roots && Shows(t, r, n, a, b) && TRAPFRAME_PAGE <= v < MAXPAGES
    ensures Shows(t', r, n, if v == TRAMPOLINE_PAGE then e else a, if v == TRAPFRAME_PAGE then e else b)
    ensures Elsewhere(t, t', roots - {r})
  {
    forall r': nat, w: nat | r' in roots && w < ALLPAGES
      ensures Entry(t', r', w) == if r' == r && w == v then e else Entry(t, r', w)
    {
      UpdatedEntry(t, t', roots, r, v, e, r', w);
    }
  }

  lemma HighSlots(r: nat, v: nat)
    requires TRAPFRAME_PAGE <= v < MAXPAGES
    ensures forall w: nat {:trigger Slot(r, w)} :: w < v ==> Slot(r, w) != Slot(r, v)
  {
    forall w: nat | w < v ensures Slot(r, w) != Slot(r, v) {
      Indices(w);
      Indices(v);
    }
  }

  // ----------------------------------------------------------- frames conserved

  function TableFrames(o: Owners): set<nat> {
    set f | f in o && IsTable(o[f])
  }

  function MappedPages(o: Owners): set<nat> {
    set f | f in o && o[f].S0?
  }

  function HandFrames(o: Owners): set<nat> {
    set f | f in o && o[f].Hand?
  }

  lemma {:induction false} Elements(s: seq<nat>) returns (e: set<nat>)
    requires forall i, j :: 0 <= i < j < |s| ==> s[i] != s[j]
    ensures |e| == |s| && forall x :: x in e <==> x in s
    decreases |s|
  {
    if s == [] {
      e := {};
    } else {
      var n := |s| - 1;
      e := Elements(s[..n]);
      assert s == s[..n] + [s[n]];
      e := e + {s[n]};
    }
  }

  lemma FreeOrOwned(free: seq<nat>, owner: Owners, ram: set<nat>)
    requires Partition(free, owner, ram)
    ensures |free| + |owner.Keys| == |ram|
  {
    var e := Elements(free);
    forall f ensures f in e + owner.Keys <==> f in ram {
      assert f in ram <==> f in owner || f in free;
    }
    assert e + owner.Keys == ram;
    forall f | f in e ensures f !in owner.Keys {
      var i :| 0 <= i < |free| && free[i] == f;
    }
    assert e !! owner.Keys;
  }

  lemma TablesOwned(t: Tables, owner: Owners, roots: set<nat>, lent: Slots)
    requires Owned(t, owner, roots, lent)
    ensures t.Keys == TableFrames(owner)
  {
    forall f ensures f in t.Keys <==> f in TableFrames(owner) {
      assert FrameOk(t, owner, roots, lent, f) && TableOk(t, owner, f);
    }
  }

  lemma UsesDiffer(owner: Owners)
    ensures |TableFrames(owner)| + |MappedPages(owner)| + |HandFrames(owner)| == |owner.Keys|
  {
    var tables, pages, hands := TableFrames(owner), MappedPages(owner), HandFrames(owner);
    assert tables !! pages && (tables + pages) !! hands && tables + pages + hands == owner.Keys;
  }

  // Free pages, table pages, mapped pages and pages in hand always add up to RAM.
  lemma PagesConserved(t: Tables, owner: Owners, roots: set<nat>, lent: Slots, free: seq<nat>, ram: set<nat>)
    requires Owned(t, owner, roots, lent) && Partition(free, owner, ram)
    ensures |free| + |t.Keys| + |MappedPages(owner)| + |HandFrames(owner)| == |ram|
  {
    TablesOwned(t, owner, roots, lent);
    UsesDiffer(owner);
    FreeOrOwned(free, owner, ram);
  }

  lemma OthersThen(o0: Owners, o1: Owners, o2: Owners, r: nat)
    requires OthersKeep(o0, o1, r) && OthersKeep(o1, o2, r)
    ensures OthersKeep(o0, o2, r)
  {
    forall f ensures (Outside(o0, f, r) <==> Outside(o2, f, r)) && (Outside(o0, f, r) ==> o2[f] == o0[f]) {
      assert Outside(o0, f, r) <==> Outside(o1, f, r);
    }
  }

  // The page that was taken and could not be mapped is the only one in hand.
  lemma GivenBack(o0: Owners, o1: Owners, o2: Owners, r: nat, f: nat)
    requires f !in o0 && o1 == o0[f := Hand] && OthersKeep(o1, o2, r)
    ensures InHand(o2, f) && OthersKeep(o0, o2 - {f}, r)
  {
    assert Outside(o1, f, r) && Outside(o2, f, r);
    forall g ensures (Outside(o0, g, r) <==> Outside(o2 - {f}, g, r)) && (Outside(o0, g, r) ==> (o2 - {f})[g] == o0[g]) {
      assert Outside(o1, g, r) <==> Outside(o2, g, r);
    }
  }

  // Frame f goes from somebody's hand to page table r.
  lemma Taken(o0: Owners, o1: Owners, r: nat, f: nat, s: Owner)
    requires InHand(o0, f) && OthersKeep(o0, o1, r) && s.S0? && s.r == r
    ensures OthersKeep(o0 - {f}, o1[f := s], r)
  {
    var a, b := o0 - {f}, o1[f := s];
    forall g ensures (Outside(a, g, r) <==> Outside(b, g, r)) && (Outside(a, g, r) ==> b[g] == a[g]) {
      assert Outside(o0, g, r) <==> Outside(o1, g, r);
    }
  }

  lemma OneTaken(o0: Owners, o1: Owners, o2: Owners, r: nat, f: nat, n: nat, hi: nat, lend: bool)
    requires OthersKeep(Rest(o0, f, n, lend), o1, r) && OthersKeep(if lend then o1 else o1 - {f + n}, o2, r) && n < hi
    requires !lend ==> HandFull(o1, f, n, hi) && f + n in o2 && !Outside(o2, f + n, r)
    ensures OthersKeep(Rest(o0, f, n + 1, lend), o2, r) && (!lend ==> HandFull(o2, f, n + 1, hi))
  {
    if lend {
      OthersThen(o0, o1, o2, r);
    } else {
      var a, b := Rest(o0, f, n, lend), Rest(o0, f, n + 1, lend);
      forall g ensures (Outside(b, g, r) <==> Outside(o2, g, r)) && (Outside(b, g, r) ==> o2[g] == b[g]) {
        assert Outside(a, g, r) <==> Outside(o1, g, r);
        assert Outside(o1 - {f + n}, g, r) <==> Outside(o2, g, r);
      }
      forall x: nat | n + 1 <= x < hi ensures InHand(o2, Nth(f, x)) {
        assert Outside(o1 - {f + n}, Nth(f, x), r) && Outside(o2, Nth(f, x), r);
      }
    }
  }

  // What is free now is what was free and what page table r had.
  ghost predicate AllReturned(free0: seq<nat>, o0: Owners, free: seq<nat>, o: Owners, r: nat) {
    && (forall f {:trigger f in free} :: f in free <==> f in free0 || (f in o0 && !Outside(o0, f, r)))
    && (forall f {:trigger f in o} :: f in o <==> Outside(o0, f, r))
    && (forall f {:trigger f in o} :: f in o ==> o[f] == o0[f])
  }

  lemma Conserved(free0: seq<nat>, o0: Owners, free: seq<nat>, o: Owners, ram: set<nat>, r: nat)
    requires Partition(free0, o0, ram) && Partition(free, o, ram) && OthersKeep(o0, o, r)
    requires forall f :: f in o ==> Outside(o, f, r)
    ensures AllReturned(free0, o0, free, o, r)
  {
    forall f ensures (f in o <==> Outside(o0, f, r)) && (f in o ==> o[f] == o0[f]) {
      assert Outside(o0, f, r) <==> Outside(o, f, r);
    }
    forall f ensures f in free <==> f in free0 || (f in o0 && !Outside(o0, f, r)) {
      assert f in ram <==> f in o0 || f in free0;
      assert f in ram <==> f in o || f in free;
    }
  }

  // Lent slots of page tables other than r.
  ghost function Without(lent: Slots, r: nat): Slots {
    set s | s in lent && !(s.S0? && s.r == r)
  }

  lemma NothingHeld(t: Tables, owner: Owners, roots: set<nat>, lent: Slots, r: nat)
    requires Owned(t, owner, roots, lent) && AllEmpty(t, r)
    ensures Owned(t, owner, roots, Without(lent, r))
  {
    forall s | (s in lent) != (s in Without(lent, r)) ensures Val(t, s) == -1 {
      assert Mid(t, r, s.i) == -1;
    }
    Relend(t, owner, roots, lent, Without(lent, r));
  }

  // The slots of pages lo to hi of page table r have left lent, and nothing else has.
  ghost predicate Returned(lent0: Slots, lent: Slots, r: nat, lo: nat, hi: nat) {
    forall s {:trigger s in lent} :: s in lent <==> s in lent0 && !InSlots(s, r, lo, hi)
  }

  ghost predicate InSlots(s: Owner, r: nat, lo: nat, hi: nat) {
    exists v: nat {:trigger Slot(r, v)} :: lo <= v < hi && s == Slot(r, v)
  }

  // Different pages have different slots.
  lemma SlotKept(lent0: Slots, lent: Slots, r: nat, lo: nat, hi: nat)
    requires Returned(lent0, lent, r, lo, hi)
    ensures hi < ALLPAGES ==> (Slot(r, hi) in lent <==> Slot(r, hi) in lent0)
    ensures Slot(r, hi) in lent ==> Slot(r, hi) in lent0
  {
    if hi < ALLPAGES && InSlots(Slot(r, hi), r, lo, hi) {
      var v: nat :| lo <= v < hi && Slot(r, v) == Slot(r, hi);
      Indices(v);
      Indices(hi);
    }
  }

  lemma ReturnedMore(lent0: Slots, lent: Slots, lent': Slots, r: nat, lo: nat, hi: nat)
    requires Returned(lent0, lent, r, lo, hi) && lent' == lent - {Slot(r, hi)} && lo <= hi
    ensures Returned(lent0, lent', r, lo, hi + 1)
  {
    forall s ensures InSlots(s, r, lo, hi + 1) <==> InSlots(s, r, lo, hi) || s == Slot(r, hi) {
    }
  }

  // The slots of pages lo to hi of page table r have come to lent, and nothing else has.
  ghost predicate Borrowed(lent0: Slots, lent: Slots, r: nat, lo: nat, hi: nat) {
    forall s {:trigger s in lent} :: s in lent <==> s in lent0 || InSlots(s, r, lo, hi)
  }

  // The first n of hi frames from f on have gone to pages of page table r, and nothing else.
  ghost predicate Received(t0: Tables, o0: Owners, lent0: Slots, t: Tables, o: Owners, lent: Slots, roots: set<nat>,
      r: nat, v: nat, n: nat, hi: nat, f: nat, flags: nat, lend: bool) {
    && MappedTo(t0, t, roots, r, v, n, f, flags) && (n > 0 ==> v + n <= MAXPAGES)
    && OthersKeep(Rest(o0, f, n, lend), o, r) && (!lend ==> HandFull(o, f, n, hi))
    && if lend then Borrowed(lent0, lent, r, v, v + n) else Returned(lent0, lent, r, v, v + n)
  }

  // The next page is as it was, and its frame is in hand.
  lemma NextFree(t0: Tables, o0: Owners, lent0: Slots, t: Tables, o: Owners, lent: Slots, roots: set<nat>,
      r: nat, v: nat, n: nat, hi: nat, f: nat, flags: nat, lend: bool)
    requires Received(t0, o0, lent0, t, o, lent, roots, r, v, n, hi, f, flags, lend) && r in roots && n < hi
    ensures Mappable(t, r, v + n) <==> Mappable(t0, r, v + n)
    ensures !lend ==> InHand(o, f + n)
  {
    assert v + n < MAXPAGES ==> Entry(t, r, v + n) == Entry(t0, r, v + n);
    assert Nth(f, n) == f + n;
  }

  lemma ReceiveStart(t: Tables, o: Owners, lent: Slots, roots: set<nat>, r: nat, v: nat, hi: nat, f: nat, flags: nat,
      lend: bool)
    requires !lend ==> HandFull(o, f, 0, hi)
    ensures Received(t, o, lent, t, o, lent, roots, r, v, 0, hi, f, flags, lend)
  {
    assert o - Frames(f, f) == o;
  }

  lemma ReceiveNone(t0: Tables, o0: Owners, lent0: Slots, t: Tables, o: Owners, t': Tables, o': Owners, lent: Slots,
      roots: set<nat>, r: nat, v: nat, n: nat, hi: nat, f: nat, flags: nat, lend: bool)
    requires Received(t0, o0, lent0, t, o, lent, roots, r, v, n, hi, f, flags, lend) && r in roots
    requires SameMap(t, t', roots) && OthersKeep(o, o', r)
    ensures Received(t0, o0, lent0, t', o', lent, roots, r, v, n, hi, f, flags, lend)
  {
    MappedSame(t0, t, t', roots, r, v, n, f, flags);
    OthersThen(Rest(o0, f, n, lend), o, o', r);
    if !lend {
      forall x: nat | n <= x < hi ensures InHand(o', Nth(f, x)) {
        assert Outside(o, Nth(f, x), r) && Outside(o', Nth(f, x), r);
      }
    }
  }

  lemma ReceiveOne(t0: Tables, o0: Owners, lent0: Slots, t: Tables, o: Owners, lent: Slots, t': Tables, o': Owners,
      lent': Slots, roots: set<nat>, r: nat, v: nat, n: nat, hi: nat, f: nat, flags: nat, lend: bool)
    requires Received(t0, o0, lent0, t, o, lent, roots, r, v, n, hi, f, flags, lend) && r in roots && n < hi
    requires Mappable(t, r, v + n)
    requires Gained(t, o, lent, t', o', lent', roots, r, v + n, f + n, flags, lend)
    ensures Received(t0, o0, lent0, t', o', lent', roots, r, v, n + 1, hi, f, flags, lend)
  {
    MappedMore(t0, t, t', roots, r, v, n, f, flags);
    OneTaken(o0, o, o', r, f, n, hi, lend);
    if lend {
      forall s ensures s in lent' <==> s in lent0 || InSlots(s, r, v, v + n + 1) {
        assert InSlots(s, r, v, v + n + 1) <==> InSlots(s, r, v, v + n) || s == Slot(r, v + n);
      }
    } else {
      ReturnedMore(lent0, lent, lent', r, v, v + n);
    }
  }

  // Pages lo to hi of page table r have been given up, and nothing else.
  ghost predicate GaveUp(t0: Tables, o0: Owners, lent0: Slots, t: Tables, o: Owners, lent: Slots, roots: set<nat>, r: nat,
      lo: nat, hi: nat, doFree: bool) {
    && Unmapped(t0, t, roots, r, lo, hi) && AllMapped(t0, r, lo, hi) && Returned(lent0, lent, r, lo, hi)
    && o == GiveUp(o0, PageFrames(t0, lent0, r, lo, hi), doFree) && (doFree ==> OthersKeep(o0, o, r))
  }

  lemma GaveNone(t: Tables, o: Owners, lent: Slots, roots: set<nat>, r: nat, v: nat, doFree: bool)
    ensures GaveUp(t, o, lent, t, o, lent, roots, r, v, v, doFree)
  {
    assert PageFrames(t, lent, r, v, v) == {};
  }

  // The next page is as it was.
  lemma StillThere(t0: Tables, o0: Owners, lent0: Slots, t: Tables, o: Owners, lent: Slots, roots: set<nat>, r: nat,
      lo: nat, a: nat, hi: nat, doFree: bool)
    requires GaveUp(t0, o0, lent0, t, o, lent, roots, r, lo, a, doFree) && r in roots && lo <= a < hi
    requires doFree ==> NoneLent(lent0, r, lo, hi)
    ensures AllMapped(t0, r, lo, hi) ==> IsMapped(t, r, a)
    ensures doFree ==> Slot(r, a) !in lent
  {
    assert a < MAXPAGES ==> Entry(t, r, a) == Entry(t0, r, a);
    assert AllMapped(t0, r, lo, hi) ==> IsMapped(t0, r, a);
    SlotKept(lent0, lent, r, lo, a);
  }

  lemma GiveOne(t0: Tables, o0: Owners, lent0: Slots, t: Tables, o: Owners, lent: Slots, t': Tables, o': Owners,
      lent': Slots, roots: set<nat>, r: nat, lo: nat, hi: nat, doFree: bool)
    requires GaveUp(t0, o0, lent0, t, o, lent, roots, r, lo, hi, doFree) && r in roots && lo <= hi < MAXPAGES
    requires Lost(t, o, lent, t', o', lent', roots, r, hi, doFree)
    ensures GaveUp(t0, o0, lent0, t', o', lent', roots, r, lo, hi + 1, doFree)
  {
    assert Entry(t, r, hi) == Entry(t0, r, hi);
    SlotKept(lent0, lent, r, lo, hi);
    UnmappedMore(t0, t, t', roots, r, lo, hi);
    ReturnedMore(lent0, lent, lent', r, lo, hi);
    FramesMore(t0, lent0, r, lo, hi, o0, o, o', doFree);
    if doFree {
      OthersThen(o0, o, o', r);
    }
  }

  // One more page given up.
  lemma FramesMore(t: Tables, lent: Slots, r: nat, lo: nat, hi: nat, o0: Owners, o: Owners, o': Owners, doFree: bool)
    requires lo <= hi && Entry(t, r, hi).Leaf? && o == GiveUp(o0, PageFrames(t, lent, r, lo, hi), doFree)
    requires o' == if Slot(r, hi) in lent then o else GiveUp(o, {Entry(t, r, hi).frame}, doFree)
    ensures o' == GiveUp(o0, PageFrames(t, lent, r, lo, hi + 1), doFree)
  {
    var fs, fs', f := PageFrames(t, lent, r, lo, hi), PageFrames(t, lent, r, lo, hi + 1), Entry(t, r, hi).frame;
    assert fs' == fs + if Slot(r, hi) in lent then {} else {f};
  }

  lemma TakeFrame(t: Tables, owner: Owners, roots: set<nat>, lent: Slots, free: seq<nat>, ram: set<nat>)
    requires Owned(t, owner, roots, lent) && Partition(free, owner, ram) && free != []
    ensures free[0] !in owner && Owned(t, owner[free[0] := Hand], roots, lent)
    ensures Partition(free[1..], owner[free[0] := Hand], ram)
  {
    var f := free[0];
    var owner' := owner[f := Hand];
    assert f !in owner;
    HandOwned(t, owner, roots, lent, f);
    var rest := free[1..];
    forall i | 0 <= i < |rest| ensures rest[i] !in owner' && rest[i] in ram {
      assert rest[i] == free[i + 1];
    }
    assert free == [f] + rest;
  }

  lemma HandOwned(t: Tables, owner: Owners, roots: set<nat>, lent: Slots, f: nat)
    requires Owned(t, owner, roots, lent) && f !in owner
    ensures Owned(t, owner[f := Hand], roots, lent)
  {
    var owner' := owner[f := Hand];
    forall s | InRange(lent, s) && s.r in roots ensures SlotOk(t, owner', s) {
      assert SlotOk(t, owner, s);
    }
    forall g ensures FrameOk(t, owner', roots, lent, g) && TableOk(t, owner', g) {
      assert FrameOk(t, owner, roots, lent, g) && TableOk(t, owner, g);
    }
    forall r | r in roots ensures RootOk(owner', r) {
      assert RootOk(owner, r);
    }
  }

  lemma GiveFrame(t: Tables, owner: Owners, roots: set<nat>, lent: Slots, free: seq<nat>, ram: set<nat>, f: nat)
    requires Owned(t, owner, roots, lent) && Partition(free, owner, ram) && f in owner && owner[f] == Hand
    ensures Owned(t, owner - {f}, roots, lent) && Partition([f] + free, owner - {f}, ram)
  {
    var owner', free' := owner - {f}, [f] + free;
    forall s | InRange(lent, s) && s.r in roots ensures SlotOk(t, owner', s) {
      assert SlotOk(t, owner, s);
    }
    forall g ensures FrameOk(t, owner', roots, lent, g) && TableOk(t, owner', g) {
      assert FrameOk(t, owner, roots, lent, g) && TableOk(t, owner, g);
    }
    forall r | r in roots ensures RootOk(owner', r) {
      assert RootOk(owner, r);
    }
    forall i | 0 <= i < |free'| ensures free'[i] !in owner' && free'[i] in ram {
      assert i > 0 ==> free'[i] == free[i - 1];
      assert f in ram;
    }
    forall i, j | 0 <= i < j < |free'| ensures free'[i] != free'[j] {
      assert free'[j] == free[j - 1] && free[j - 1] !in owner;
    }
  }

  lemma PartitionKeys(free: seq<nat>, owner: Owners, ram: set<nat>, f: nat, s: Owner)
    requires Partition(free, owner, ram) && f in owner
    ensures Partition(free, owner[f := s], ram)
  {
  }

  lemma HangMidSame(t: Tables, owner: Owners, roots: set<nat>, lent: Slots, r: nat, i: nat, f: nat)
    requires Owned(t, owner, roots, lent) && r in roots && i < ENTRIES && Mid(t, r, i) == -1 && f in owner
    requires owner[f] == Hand
    ensures r in t && i < |t[r]| && SameMap(t, Hang(t, r, i, f), roots) && Mid(Hang(t, r, i, f), r, i) == f
  {
    HangMidWalk(t, owner, roots, lent, r, i, f, r, i, 0, 0);
    var t' := Hang(t, r, i, f);
    forall r': nat, i': nat, j: nat, k: nat | r' in roots && i' < ENTRIES && j < ENTRIES && k < ENTRIES
      ensures Lookup(t', r', i', j, k) == Lookup(t, r', i', j, k)
    {
      HangMidWalk(t, owner, roots, lent, r, i, f, r', i', j, k);
    }
  }

  lemma HangLowSame(t: Tables, owner: Owners, roots: set<nat>, lent: Slots, r: nat, i: nat, j: nat, f: nat)
    requires Owned(t, owner, roots, lent) && r in roots && i < ENTRIES && j < ENTRIES && Mid(t, r, i) >= 0
    requires Low(t, r, i, j) == -1
    requires f in owner && owner[f] == Hand
    ensures Mid(t, r, i) in t && j < |t[Mid(t, r, i)]|
    ensures SameMap(t, Hang(t, Mid(t, r, i), j, f), roots) && Low(Hang(t, Mid(t, r, i), j, f), r, i, j) == f
  {
    HangLowWalk(t, owner, roots, lent, r, i, j, f, r, i, j, 0);
    var t' := Hang(t, Mid(t, r, i), j, f);
    forall r': nat, i': nat, j': nat, k: nat | r' in roots && i' < ENTRIES && j' < ENTRIES && k < ENTRIES
      ensures Lookup(t', r', i', j', k) == Lookup(t, r', i', j', k)
    {
      HangLowWalk(t, owner, roots, lent, r, i, j, f, r', i', j', k);
    }
  }

  lemma LeafUpdated(t: Tables, owner: Owners, roots: set<nat>, lent: Slots, r: nat, v: nat, e: Pte)
    requires Owned(t, owner, roots, lent) && r in roots && v < MAXPAGES && Low(t, r, I(v), J(v)) >= 0 && !e.Link?
    ensures Low(t, r, I(v), J(v)) in t && K(v) < |t[Low(t, r, I(v), J(v))]|
    ensures MapUpdated(t, Put(t, Low(t, r, I(v), J(v)), K(v), e), roots, r, v, e)
  {
    Indices(v);
    LeafWalk(t, owner, roots, lent, r, I(v), J(v), K(v), e, r, 0, 0, 0);
    var t' := Put(t, Low(t, r, I(v), J(v)), K(v), e);
    forall r': nat, i: nat, j: nat, k: nat | r' in roots && i < ENTRIES && j < ENTRIES && k < ENTRIES
      ensures Lookup(t', r', i, j, k)
           == if r' == r && i == I(v) && j == J(v) && k == K(v) then e else Lookup(t, r', i, j, k)
    {
      LeafWalk(t, owner, roots, lent, r, I(v), J(v), K(v), e, r', i, j, k);
    }
  }

  lemma SameThenUpdated(t: Tables, t1: Tables, t2: Tables, roots: set<nat>, r: nat, v: nat, e: Pte)
    requires SameMap(t, t1, roots) && MapUpdated(t1, t2, roots, r, v, e)
    ensures MapUpdated(t, t2, roots, r, v, e)
  {
    forall r': nat, i: nat, j: nat, k: nat | r' in roots && i < ENTRIES && j < ENTRIES && k < ENTRIES
      ensures Lookup(t2, r', i, j, k)
           == if r' == r && i == I(v) && j == J(v) && k == K(v) then e else Lookup(t, r', i, j, k)
    {
      assert Lookup(t1, r', i, j, k) == Lookup(t, r', i, j, k);
    }
  }

  // ------------------------------------------------------ the map page by page

  // PGROUNDUP(sz) / PGSIZE
  function Pages(sz: nat): nat {
    (sz + PGSIZE - 1) / PGSIZE
  }

  lemma PagesMonotone(a: nat, b: nat)
    requires a <= b
    ensures Pages(a) <= Pages(b)
  {
  }

  // Only pages lo to hi of page table r may be mapped differently.
  ghost predicate SameBut(t: Tables, t': Tables, roots: set<nat>, r: nat, lo: nat, hi: nat) {
    forall r': nat, v: nat {:trigger Entry(t', r', v)} ::
      r' in roots && v < ALLPAGES && !(r' == r && lo <= v < hi) ==> Entry(t', r', v) == Entry(t, r', v)
  }

  lemma UpdatedEntry(t: Tables, t': Tables, roots: set<nat>, r: nat, v: nat, e: Pte, r': nat, v': nat)
    requires MapUpdated(t, t', roots, r, v, e) && r in roots && r' in roots && v < ALLPAGES && v' < ALLPAGES
    ensures Entry(t', r', v') == if r' == r && v' == v then e else Entry(t, r', v')
  {
    Indices(v);
    Indices(v');
  }

  // The first n pages from v on, empty in t0, are mapped to the frames from f on, and nothing else is.
  ghost predicate MappedTo(t0: Tables, t: Tables, roots: set<nat>, r: nat, v: nat, n: nat, f: nat, flags: nat) {
    && SameBut(t0, t, roots, r, v, v + n)
    && (forall w {:trigger Entry(t, r, w)} :: v <= w < v + n ==> Entry(t, r, w) == Leaf(f + (w - v), flags))
    && (forall w {:trigger Entry(t0, r, w)} :: v <= w < v + n ==> Entry(t0, r, w) == Empty)
  }

  lemma MappedSame(t0: Tables, t: Tables, t': Tables, roots: set<nat>, r: nat, v: nat, n: nat, f: nat, flags: nat)
    requires MappedTo(t0, t, roots, r, v, n, f, flags) && SameMap(t, t', roots) && r in roots
    requires (n > 0 ==> v + n <= ALLPAGES)
    ensures MappedTo(t0, t', roots, r, v, n, f, flags)
  {
    SameMapBut(t0, t, t', roots, r, v, v + n);
    SamePages(t, t', roots, r, v, v + n);
  }

  lemma MappedMore(t0: Tables, t: Tables, t': Tables, roots: set<nat>, r: nat, v: nat, n: nat, f: nat, flags: nat)
    requires MappedTo(t0, t, roots, r, v, n, f, flags) && r in roots && v + n < ALLPAGES && Entry(t, r, v + n) == Empty
    requires MapUpdated(t, t', roots, r, v + n, Leaf(f + n, flags))
    ensures MappedTo(t0, t', roots, r, v, n + 1, f, flags)
  {
    UpdatedBut(t0, t, t', roots, r, v, v + n, Leaf(f + n, flags));
    assert Entry(t0, r, v + n) == Entry(t, r, v + n);
  }

  // The pages from lo to hi were mapped in t0 and are not any more, and nothing else changed.
  ghost predicate Unmapped(t0: Tables, t: Tables, roots: set<nat>, r: nat, lo: nat, hi: nat) {
    && SameBut(t0, t, roots, r, lo, hi)
    && (forall v {:trigger Entry(t, r, v)} :: lo <= v < hi ==> Entry(t, r, v) == Empty)
    && (forall v {:trigger Entry(t0, r, v)} :: lo <= v < hi ==> Entry(t0, r, v).Leaf?)
  }

  lemma UnmappedMore(t0: Tables, t: Tables, t': Tables, roots: set<nat>, r: nat, lo: nat, hi: nat)
    requires Unmapped(t0, t, roots, r, lo, hi) && r in roots && lo <= hi < ALLPAGES && Entry(t, r, hi).Leaf?
    requires MapUpdated(t, t', roots, r, hi, Empty)
    ensures Unmapped(t0, t', roots, r, lo, hi + 1)
  {
    UpdatedBut(t0, t, t', roots, r, lo, hi, Empty);
    assert Entry(t0, r, hi) == Entry(t, r, hi);
  }

  lemma SamePages(t: Tables, t': Tables, roots: set<nat>, r: nat, lo: nat, hi: nat)
    requires SameMap(t, t', roots) && r in roots && (lo < hi ==> hi <= ALLPAGES)
    ensures forall v :: lo <= v < hi ==> Entry(t', r, v) == Entry(t, r, v)
  {
    forall v | lo <= v < hi ensures Entry(t', r, v) == Entry(t, r, v) {
      Indices(v);
    }
  }

  lemma UpdatedBut(t0: Tables, t: Tables, t': Tables, roots: set<nat>, r: nat, lo: nat, a: nat, e: Pte)
    requires SameBut(t0, t, roots, r, lo, a) && MapUpdated(t, t', roots, r, a, e) && r in roots && lo <= a < ALLPAGES
    ensures SameBut(t0, t', roots, r, lo, a + 1) && Entry(t', r, a) == e
    ensures forall v :: lo <= v < a ==> Entry(t', r, v) == Entry(t, r, v)
  {
    forall r': nat, v: nat | r' in roots && v < ALLPAGES
      ensures Entry(t', r', v) == if r' == r && v == a then e else Entry(t, r', v)
    {
      UpdatedEntry(t, t', roots, r, a, e, r', v);
    }
  }

  lemma SameMapBut(t0: Tables, t: Tables, t': Tables, roots: set<nat>, r: nat, lo: nat, hi: nat)
    requires SameBut(t0, t, roots, r, lo, hi) && SameMap(t, t', roots) && r in roots && (lo < hi ==> hi <= ALLPAGES)
    ensures SameBut(t0, t', roots, r, lo, hi) && forall v :: lo <= v < hi ==> Entry(t', r, v) == Entry(t, r, v)
  {
    forall r': nat, v: nat | r' in roots && v < ALLPAGES ensures Entry(t', r', v) == Entry(t, r', v) {
      Indices(v);
    }
  }

  // Pages 0 to n of page table r are mapped, and no page above them up to the trapframe.
  ghost predicate UserPages(t: Tables, r: nat, n: nat) {
    forall v: nat {:trigger Entry(t, r, v)} ::
      v < TRAPFRAME_PAGE ==> if v < n then Entry(t, r, v).Leaf? else Entry(t, r, v) == Empty
  }

  ghost predicate NewPages(t: Tables, r: nat, lo: nat, hi: nat, flags: nat) {
    forall v: nat {:trigger Entry(t, r, v)} :: lo <= v < hi ==> Entry(t, r, v).Leaf? && Entry(t, r, v).flags == flags
  }

  lemma MorePages(t: Tables, t': Tables, roots: set<nat>, r: nat, v: nat, e: Pte)
    requires UserPages(t, r, v) && MapUpdated(t, t', roots, r, v, e) && r in roots && v < TRAPFRAME_PAGE && e.Leaf?
    ensures UserPages(t', r, v + 1)
  {
    forall w: nat | w < TRAPFRAME_PAGE ensures Entry(t', r, w) == if w == v then e else Entry(t, r, w) {
      UpdatedEntry(t, t', roots, r, v, e, r, w);
    }
  }

  lemma OneMore(t0: Tables, t: Tables, t': Tables, roots: set<nat>, r: nat, v0: nat, v: nat, f: nat, flags: nat)
    requires UserPages(t, r, v) && SameBut(t0, t, roots, r, v0, v) && NewPages(t, r, v0, v, flags)
    requires MapUpdated(t, t', roots, r, v, Leaf(f, flags)) && r in roots && v0 <= v < TRAPFRAME_PAGE
    ensures UserPages(t', r, v + 1) && SameBut(t0, t', roots, r, v0, v + 1) && NewPages(t', r, v0, v + 1, flags)
  {
    UpdatedBut(t0, t, t', roots, r, v0, v, Leaf(f, flags));
    MorePages(t, t', roots, r, v, Leaf(f, flags));
  }

  // What was mapped from lo to hi is gone again, and it was empty before.
  lemma Restored(t0: Tables, t1: Tables, t2: Tables, roots: set<nat>, r: nat, lo: nat, hi: nat)
    requires SameBut(t0, t1, roots, r, lo, hi) && SameBut(t1, t2, roots, r, lo, hi) && r in roots
    requires forall v :: lo <= v < hi ==> Entry(t2, r, v) == Empty && Entry(t0, r, v) == Empty
    ensures SameBut(t0, t2, roots, r, 0, 0)
  {
    forall r': nat, v: nat | r' in roots && v < ALLPAGES ensures Entry(t2, r', v) == Entry(t0, r', v) {
      if !(r' == r && lo <= v < hi) {
        assert Entry(t1, r', v) == Entry(t0, r', v);
      }
    }
  }

  function Frames(first: nat, last: nat): (r: set<nat>)
    requires first <= last
    ensures |r| == last - first && forall f: nat :: f in r <==> first <= f < last
    decreases last - first
  {
    if first == last then {} else Frames(first, last - 1) + {last - 1}
  }

  lemma AllFree(list: seq<nat>, first: nat, last: nat)
    requires first <= last && |list| == last - first && forall i :: 0 <= i < |list| ==> list[i] == last - 1 - i
    ensures Owned(map[], map[], {}, {}) && Partition(list, map[], Frames(first, last))
  {
    var ram := Frames(first, last);
    forall f: nat ensures f in ram <==> f in list {
      if f in ram {
        assert list[last - 1 - f] == f;
      }
    }
    var t: Tables, owner: Owners := map[], map[];
    assert forall f :: FrameOk(t, owner, {}, {}, f) && TableOk(t, owner, f);
  }

  // ------------------------------------------------------------- counting RAM

  function PageOf(s: Owner): int {
    if s.S0? then s.i * 0x4_0000 + s.j * 512 + s.k else -1
  }

  // The frames behind the first n pages of page table r.
  lemma {:induction false} MappedFrames(t: Tables, owner: Owners, roots: set<nat>, lent: Slots, r: nat,
      n: nat) returns (fs: set<nat>)
    requires Owned(t, owner, roots, lent) && r in roots && n <= TRAPFRAME_PAGE
    requires forall v :: 0 <= v < n ==> Entry(t, r, v).Leaf?
    requires OwnPages(lent, r)
    ensures |fs| == n && fs <= owner.Keys && forall f :: f in fs ==> 0 <= PageOf(owner[f]) < n
    decreases n
  {
    if n == 0 {
      fs := {};
    } else {
      var v := n - 1;
      var rest := MappedFrames(t, owner, roots, lent, r, v);
      Indices(v);
      assert Entry(t, r, v).Leaf? && SlotOk(t, owner, Slot(r, v));
      fs := rest + {Entry(t, r, v).frame};
    }
  }

  // With the first n pages mapped and another page in hand, n is below the size of RAM.
  lemma RamBound(t: Tables, owner: Owners, roots: set<nat>, lent: Slots, free: seq<nat>, ram: set<nat>, r: nat, n: nat,
      f: nat)
    requires Owned(t, owner, roots, lent) && Partition(free, owner, ram) && r in roots && f in owner && owner[f] == Hand
    requires n <= TRAPFRAME_PAGE && OwnPages(lent, r) && forall v :: 0 <= v < n ==> Entry(t, r, v).Leaf?
    ensures n < |ram|
  {
    var fs := MappedFrames(t, owner, roots, lent, r, n);
    assert f !in fs;
    assert fs + {f} <= ram;
    Subset(fs + {f}, ram);
  }

  lemma {:induction false} Subset(a: set<nat>, b: set<nat>)
    requires a <= b
    ensures |a| <= |b|
    decreases |a|
  {
    if x: nat :| x in a {
      Subset(a - {x}, b - {x});
    }
  }

  // -------------------------------------------------------------- page contents

  function Content(page: map<nat, int>, f: nat): int {
    if f in page then page[f] else 0
  }

  // The first n pages of the child have the parent's flags and contents.
  ghost predicate Copied(t0: Tables, page0: map<nat, int>, t: Tables, page: map<nat, int>, parent: nat, child: nat,
      n: nat) {
    forall v: nat {:trigger Entry(t, child, v)} :: v < n ==>
      && Entry(t, child, v).Leaf? && Entry(t0, parent, v).Leaf?
      && Entry(t, child, v).flags == Entry(t0, parent, v).flags
      && Content(page, Entry(t, child, v).frame) == Content(page0, Entry(t0, parent, v).frame)
  }

  // The parent's pages and their contents are what they were.
  ghost predicate Kept(t0: Tables, page0: map<nat, int>, t: Tables, page: map<nat, int>, parent: nat, n: nat) {
    forall v: nat {:trigger Entry(t, parent, v)} :: v < n ==>
      && Entry(t, parent, v) == Entry(t0, parent, v) && Entry(t, parent, v).Leaf?
      && Content(page, Entry(t, parent, v).frame) == Content(page0, Entry(t0, parent, v).frame)
  }

  // The frames that had an owner have the contents that they had.
  ghost predicate PagesKept(o: Owners, page: map<nat, int>, page': map<nat, int>) {
    forall f {:trigger Content(page', f)} :: f in o ==> Content(page', f) == Content(page, f)
  }

  lemma KeptThen(o0: Owners, o1: Owners, page0: map<nat, int>, page1: map<nat, int>, page2: map<nat, int>)
    requires o0.Keys <= o1.Keys && PagesKept(o0, page0, page1) && PagesKept(o1, page1, page2)
    ensures PagesKept(o0, page0, page2)
  {
    forall f | f in o0 ensures Content(page2, f) == Content(page0, f) {
      assert f in o1 && Content(page1, f) == Content(page0, f);
    }
  }

  // The pages from lo to hi of page table r are all zeroes.
  ghost predicate ZeroPages(t: Tables, page: map<nat, int>, r: nat, lo: nat, hi: nat) {
    forall v: nat {:trigger Entry(t, r, v)} :: lo <= v < hi ==>
      Entry(t, r, v).Leaf? && Content(page, Entry(t, r, v).frame) == 0
  }

  lemma ZeroMore(t: Tables, page: map<nat, int>, t': Tables, owner: Owners, roots: set<nat>, lent: Slots, r: nat,
      v0: nat, v: nat, f: nat, flags: nat)
    requires Owned(t, owner, roots, lent) && r in roots && v0 <= v < TRAPFRAME_PAGE && OwnPages(lent, r)
    requires ZeroPages(t, page, r, v0, v) && MapUpdated(t, t', roots, r, v, Leaf(f, flags)) && f !in owner
    ensures ZeroPages(t', page[f := 0], r, v0, v + 1)
  {
    forall w: nat | v0 <= w < v + 1
      ensures Entry(t', r, w).Leaf? && Content(page[f := 0], Entry(t', r, w).frame) == 0
    {
      UpdatedEntry(t, t', roots, r, v, Leaf(f, flags), r, w);
      if w < v {
        MappedOwned(t, owner, roots, lent, r, w);
      }
    }
  }

  lemma MappedOwned(t: Tables, owner: Owners, roots: set<nat>, lent: Slots, r: nat, v: nat)
    requires Owned(t, owner, roots, lent) && r in roots && v < TRAPFRAME_PAGE && Entry(t, r, v).Leaf?
    requires OwnPages(lent, r)
    ensures Entry(t, r, v).frame in owner
  {
    Indices(v);
    assert SlotOk(t, owner, Slot(r, v));
  }

  lemma CopyStep(t0: Tables, page0: map<nat, int>, t: Tables, page: map<nat, int>, t': Tables, page': map<nat, int>,
      owner: Owners, roots: set<nat>, lent: Slots, parent: nat, child: nat, v: nat, n: nat, f: nat)
    requires Owned(t, owner, roots, lent) && parent in roots && child in roots && parent != child
    requires v < n <= TRAPFRAME_PAGE
    requires OwnPages(lent, parent) && OwnPages(lent, child)
    requires SameBut(t0, t, roots, child, 0, v) && Copied(t0, page0, t, page, parent, child, v)
    requires Kept(t0, page0, t, page, parent, n)
    requires Entry(t, parent, v).Leaf? && MapUpdated(t, t', roots, child, v, Leaf(f, Entry(t, parent, v).flags))
    requires f !in owner && page' == page[f := Content(page, Entry(t, parent, v).frame)]
    ensures SameBut(t0, t', roots, child, 0, v + 1) && Copied(t0, page0, t', page', parent, child, v + 1)
    ensures Kept(t0, page0, t', page', parent, n)
  {
    var e := Leaf(f, Entry(t, parent, v).flags);
    UpdatedBut(t0, t, t', roots, child, 0, v, e);
    forall w: nat | w < n
      ensures Entry(t', parent, w) == Entry(t, parent, w) && Entry(t, parent, w).Leaf? && Entry(t, parent, w).frame != f
    {
      UpdatedEntry(t, t', roots, child, v, e, parent, w);
      MappedOwned(t, owner, roots, lent, parent, w);
    }
    forall w: nat | w < v
      ensures Entry(t', child, w) == Entry(t, child, w) && Entry(t, child, w).Leaf? && Entry(t, child, w).frame != f
    {
      UpdatedEntry(t, t', roots, child, v, e, child, w);
      MappedOwned(t, owner, roots, lent, child, w);
    }
  }

  lemma NewRoot(t: Tables, owner: Owners, roots: set<nat>, lent: Slots, f: nat)
    requires Owned(t, owner, roots, lent) && f in owner && owner[f] == Hand
    ensures SameMap(t, t[f := ZeroTable(ENTRIES)], roots)
    ensures NoLeaf(t[f := ZeroTable(ENTRIES)], f)
  {
    var t' := t[f := ZeroTable(ENTRIES)];
    assert FrameOk(t, owner, roots, lent, f);
    if f in roots {
      RootIs(t, owner, roots, lent, f);
    }
    forall r: nat, i: nat, j: nat, k: nat | r in roots && i < ENTRIES && j < ENTRIES && k < ENTRIES
      ensures Lookup(t', r, i, j, k) == Lookup(t, r, i, j, k)
    {
      AddRootWalk(t, owner, roots, lent, f, r, i, j, k);
    }
    forall i: nat, j: nat, k: nat | i < ENTRIES && j < ENTRIES && k < ENTRIES ensures Lookup(t', f, i, j, k) == Empty {
      AddRootWalk(t, owner, roots, lent, f, f, i, j, k);
    }
  }

  // -------------------------------------------------------------- freewalk()

  ghost predicate NoLeaf(t: Tables, r: nat) {
    forall i: nat, j: nat, k: nat {:trigger Lookup(t, r, i, j, k)} ::
      i < ENTRIES && j < ENTRIES && k < ENTRIES ==> Lookup(t, r, i, j, k) == Empty
  }

  lemma UnhangLowSame(t: Tables, owner: Owners, roots: set<nat>, lent: Slots, r: nat, i: nat, j: nat)
    requires Owned(t, owner, roots, lent) && r in roots && i < ENTRIES && j < ENTRIES && Low(t, r, i, j) >= 0
    requires AllEmpty(t, Low(t, r, i, j))
    ensures Mid(t, r, i) >= 0 && Mid(t, r, i) in t && j < |t[Mid(t, r, i)]|
    ensures var t' := Unhang(t, Mid(t, r, i), j, Low(t, r, i, j)); SameMap(t, t', roots) && Mid(t', r, i) == Mid(t, r, i)
  {
    UnhangLowWalk(t, owner, roots, lent, r, i, j, r, i, j, 0);
    var t' := Unhang(t, Mid(t, r, i), j, Low(t, r, i, j));
    forall r': nat, i': nat, j': nat, k: nat | r' in roots && i' < ENTRIES && j' < ENTRIES && k < ENTRIES
      ensures Lookup(t', r', i', j', k) == Lookup(t, r', i', j', k)
    {
      UnhangLowWalk(t, owner, roots, lent, r, i, j, r', i', j', k);
    }
  }

  lemma UnhangMidSame(t: Tables, owner: Owners, roots: set<nat>, lent: Slots, r: nat, i: nat)
    requires Owned(t, owner, roots, lent) && r in roots && i < ENTRIES && Mid(t, r, i) >= 0 && AllEmpty(t, Mid(t, r, i))
    ensures r in t && i < |t[r]| && SameMap(t, Unhang(t, r, i, Mid(t, r, i)), roots)
  {
    UnhangMidWalk(t, owner, roots, lent, r, i, r, i, 0, 0);
    var t' := Unhang(t, r, i, Mid(t, r, i));
    forall r': nat, i': nat, j: nat, k: nat | r' in roots && i' < ENTRIES && j < ENTRIES && k < ENTRIES
      ensures Lookup(t', r', i', j, k) == Lookup(t, r', i', j, k)
    {
      UnhangMidWalk(t, owner, roots, lent, r, i, r', i', j, k);
    }
  }

  lemma DropRootSame(t: Tables, owner: Owners, roots: set<nat>, lent: Slots, r: nat)
    requires Owned(t, owner, roots, lent) && r in roots
    ensures SameMap(t, t - {r}, roots - {r})
  {
    var t' := t - {r};
    forall r': nat, i: nat, j: nat, k: nat | r' in roots - {r} && i < ENTRIES && j < ENTRIES && k < ENTRIES
      ensures Lookup(t', r', i, j, k) == Lookup(t, r', i, j, k)
    {
      DropRootWalk(t, owner, roots, lent, r, r', i, j, k);
    }
  }

  lemma SameSame(t0: Tables, t1: Tables, t2: Tables, roots: set<nat>)
    requires SameMap(t0, t1, roots) && SameMap(t1, t2, roots)
    ensures SameMap(t0, t2, roots)
  {
    SameSub(t0, t1, t2, roots, roots);
  }

  lemma SameSub(t0: Tables, t1: Tables, t2: Tables, roots: set<nat>, roots': set<nat>)
    requires SameMap(t0, t1, roots) && SameMap(t1, t2, roots') && roots' <= roots
    ensures SameMap(t0, t2, roots')
  {
    forall r: nat, i: nat, j: nat, k: nat | r in roots' && i < ENTRIES && j < ENTRIES && k < ENTRIES
      ensures Lookup(t2, r, i, j, k) == Lookup(t0, r, i, j, k)
    {
      assert Lookup(t1, r, i, j, k) == Lookup(t0, r, i, j, k);
    }
  }

  lemma SameNoLeaf(t: Tables, t': Tables, roots: set<nat>, r: nat)
    requires SameMap(t, t', roots) && r in roots && NoLeaf(t, r)
    ensures NoLeaf(t', r)
  {
    forall i: nat, j: nat, k: nat | i < ENTRIES && j < ENTRIES && k < ENTRIES ensures Lookup(t', r, i, j, k) == Empty {
      assert Lookup(t, r, i, j, k) == Empty;
    }
  }

  lemma NoneOwned(t: Tables, owner: Owners, roots: set<nat>, lent: Slots, r: nat)
    requires Owned(t, owner, roots, lent) && r !in roots
    ensures forall f :: f in owner ==> Outside(owner, f, r)
  {
    forall f | f in owner ensures Outside(owner, f, r) {
      assert FrameOk(t, owner, roots, lent, f);
    }
  }

  lemma AllGone(t: Tables, r: nat)
    requires forall v: nat :: v < ALLPAGES ==> Entry(t, r, v) == Empty
    ensures NoLeaf(t, r)
  {
    forall i: nat, j: nat, k: nat | i < ENTRIES && j < ENTRIES && k < ENTRIES ensures Lookup(t, r, i, j, k) == Empty {
      Compose(i, j, k);
      assert Entry(t, r, i * 0x4_0000 + j * 512 + k) == Empty;
    }
  }

  lemma Compose(i: nat, j: nat, k: nat)
    requires i < ENTRIES && j < ENTRIES && k < ENTRIES
    ensures var v := i * 0x4_0000 + j * 512 + k; v < ALLPAGES && I(v) == i && J(v) == j && K(v) == k
  {
    var v := i * 0x4_0000 + j * 512 + k;
    assert v / 512 == i * 512 + j;
  }
}
