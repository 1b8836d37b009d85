// Three-level page tables (Sv39, section 4.4 of the RISC-V Privileged
// Architecture manual) over the page allocator. Pages are known by their
// frame numbers; every frame is free or has exactly one owner.
module VmSpec {

  const ENTRIES := 512

  // An entry is invalid, points to a table one level down, or maps a page.
  datatype Pte = Empty | Link(frame: nat) | Leaf(frame: nat, flags: nat)

  type Tables = map<nat, seq<Pte>>

  // What a frame is used for: the root of page table r, the table behind entry i
  // of the root, the table behind entry j of that one, the page behind entry k
  // of that one, or it is in the hands of whoever called kalloc().
  datatype Owner =
    | Root(r: nat)
    | S2(r: nat, i: nat)
    | S1(r: nat, i: nat, j: nat)
    | S0(r: nat, i: nat, j: nat, k: nat)
    | Hand

  type Owners = map<nat, Owner>
  type Slots = set<Owner>

  predicate IsTable(s: Owner) {
    s.Root? || s.S2? || s.S1?
  }

  // Slots in lent map pages that belong to somebody else: the trampoline and the trapframe
  // of a process, and all that the kernel's own page table maps.
  predicate InRange(lent: Slots, s: Owner) {
    match s
    case Root(_) => true
    case S2(_, i) => i < ENTRIES
    case S1(_, i, j) => i < ENTRIES && j < ENTRIES
    case S0(_, i, j, k) => i < ENTRIES && j < ENTRIES && k < ENTRIES && s !in lent
    case Hand => false
  }

  function Get(t: Tables, f: int, i: nat): Pte {
    if f in t && i < |t[f]| then t[f][i] else Empty
  }

  // The table behind entry i of the root, and so on down; -1 if there is none.
  function Mid(t: Tables, r: nat, i: nat): int {
    if Get(t, r, i).Link? then Get(t, r, i).frame else -1
  }

  function Low(t: Tables, r: nat, i: nat, j: nat): int {
    var m := Mid(t, r, i);
    if Get(t, m, j).Link? then Get(t, m, j).frame else -1
  }

  // The entry that page table r has for a page.
  function Lookup(t: Tables, r: nat, i: nat, j: nat, k: nat): Pte {
    Get(t, Low(t, r, i, j), k)
  }

  function Val(t: Tables, s: Owner): int {
    match s
    case Root(_) => -1
    case S2(r, i) => Mid(t, r, i)
    case S1(r, i, j) => Low(t, r, i, j)
    case S0(r, i, j, k) => if Lookup(t, r, i, j, k).Leaf? then Lookup(t, r, i, j, k).frame else -1
    case Hand => -1
  }

  // ----------------------------------------------------------- the invariant

  ghost predicate SlotOk(t: Tables, owner: Owners, s: Owner) {
    Val(t, s) >= 0 ==> Val(t, s) in owner && owner[Val(t, s)] == s
  }

  ghost predicate FrameOk(t: Tables, owner: Owners, roots: set<nat>, lent: Slots, f: nat) {
    f in owner ==>
      && (f in t <==> IsTable(owner[f]))
      && match owner[f]
         case Root(r) => r == f && r in roots
         case Hand => true
         case s => InRange(lent, s) && s.r in roots && Val(t, s) == f
  }

  // A table of 512 entries of the kind its level has.
  ghost predicate TableOk(t: Tables, owner: Owners, f: nat) {
    f in t ==>
      && f in owner && |t[f]| == ENTRIES
      && forall i :: 0 <= i < ENTRIES ==> EntryOk(owner[f], t[f][i])
  }

  predicate EntryOk(s: Owner, e: Pte) {
    if s.S1? then !e.Link? else !e.Leaf?
  }

  ghost predicate Owned(t: Tables, owner: Owners, roots: set<nat>, lent: Slots) {
    && (forall s {:trigger SlotOk(t, owner, s)} :: InRange(lent, s) && s.r in roots ==> SlotOk(t, owner, s))
    && (forall f {:trigger FrameOk(t, owner, roots, lent, f)} :: FrameOk(t, owner, roots, lent, f))
    && (forall f {:trigger TableOk(t, owner, f)} :: TableOk(t, owner, f))
    && (forall r {:trigger RootOk(owner, r)} :: r in roots ==> RootOk(owner, r))
  }

  predicate RootOk(owner: Owners, r: nat) {
    r in owner && owner[r] == Root(r)
  }

  // Every frame of RAM is on the free list once, or has an owner.
  ghost predicate Partition(free: seq<nat>, owner: Owners, ram: set<nat>) {
    && (forall i {:trigger free[i]} :: 0 <= i < |free| ==> free[i] !in owner && free[i] in ram)
    && (forall i, j :: 0 <= i < j < |free| ==> free[i] != free[j])
    && (forall f {:trigger f in ram} :: f in ram <==> f in owner || f in free)
  }

  // ------------------------------------------------------ following the links

  // A table has one slot, so tables reached through different slots differ.
  lemma MidIs(t: Tables, owner: Owners, roots: set<nat>, lent: Slots, r: nat, i: nat)
    requires Owned(t, owner, roots, lent) && r in roots && i < ENTRIES && Mid(t, r, i) >= 0
    ensures Mid(t, r, i) in owner && owner[Mid(t, r, i)] == S2(r, i) && Mid(t, r, i) in t
    ensures |t[Mid(t, r, i)]| == ENTRIES
  {
    var m: nat := Mid(t, r, i);
    assert SlotOk(t, owner, S2(r, i)) && FrameOk(t, owner, roots, lent, m) && TableOk(t, owner, m);
  }

  lemma LowIs(t: Tables, owner: Owners, roots: set<nat>, lent: Slots, r: nat, i: nat, j: nat)
    requires Owned(t, owner, roots, lent) && r in roots && i < ENTRIES && j < ENTRIES && Low(t, r, i, j) >= 0
    ensures Low(t, r, i, j) in owner && owner[Low(t, r, i, j)] == S1(r, i, j) && Low(t, r, i, j) in t
    ensures |t[Low(t, r, i, j)]| == ENTRIES
  {
    var m: nat := Low(t, r, i, j);
    assert SlotOk(t, owner, S1(r, i, j)) && FrameOk(t, owner, roots, lent, m) && TableOk(t, owner, m);
  }

  lemma RootIs(t: Tables, owner: Owners, roots: set<nat>, lent: Slots, r: nat)
    requires Owned(t, owner, roots, lent) && r in roots
    ensures r in owner && owner[r] == Root(r) && r in t && |t[r]| == ENTRIES
  {
    assert RootOk(owner, r) && FrameOk(t, owner, roots, lent, r) && TableOk(t, owner, r);
  }

  // ------------------------------------------------------- changing an entry

  function ZeroTable(n: nat): (z: seq<Pte>)
    ensures |z| == n && forall i :: 0 <= i < n ==> z[i] == Empty
  {
    if n == 0 then [] else ZeroTable(n - 1) + [Empty]
  }

  function Put(t: Tables, f: nat, i: nat, e: Pte): Tables
    requires f in t && i < |t[f]|
  {
    t[f := t[f][i := e]]
  }

  // A zeroed table f behind entry i of table p.
  function Hang(t: Tables, p: nat, i: nat, f: nat): Tables
    requires p in t && i < |t[p]|
  {
    Put(t, p, i, Link(f))[f := ZeroTable(ENTRIES)]
  }

  // The table f behind entry i of table p is taken away.
  function Unhang(t: Tables, p: nat, i: nat, f: nat): Tables
    requires p in t && i < |t[p]|
  {
    Put(t, p, i, Empty) - {f}
  }

  ghost predicate AllEmpty(t: Tables, f: nat) {
    f in t && forall i :: 0 <= i < |t[f]| ==> t[f][i] == Empty
  }

  // Only slot s changed, to v.
  ghost predicate OnlyVal(t: Tables, t': Tables, roots: set<nat>, lent: Slots, s: Owner, v: int) {
    && Val(t', s) == v
    && forall u {:trigger Val(t', u)} :: InRange(lent, u) && u.r in roots && u != s ==> Val(t', u) == Val(t, u)
  }

  // Frame f, in hand, becomes what slot s holds.
  lemma Assign(t: Tables, t': Tables, owner: Owners, roots: set<nat>, lent: Slots, s: Owner, f: nat)
    requires Owned(t, owner, roots, lent) && InRange(lent, s) && s.r in roots && !s.Root?
    requires OnlyVal(t, t', roots, lent, s, f)
    requires Val(t, s) == -1 && f in owner && owner[f] == Hand
    requires forall g {:trigger g in t'} :: g in t' <==> g in t || (g == f && IsTable(s))
    requires forall g {:trigger TableOk(t', owner[f := s], g)} :: TableOk(t', owner[f := s], g)
    ensures Owned(t', owner[f := s], roots, lent)
  {
    var owner' := owner[f := s];
    forall u | InRange(lent, u) && u.r in roots ensures SlotOk(t', owner', u) {
      assert SlotOk(t, owner, u);
    }
    forall g ensures FrameOk(t', owner', roots, lent, g) {
      assert FrameOk(t, owner, roots, lent, g) && FrameOk(t, owner, roots, lent, f);
    }
    forall r | r in roots ensures RootOk(owner', r) {
      assert RootOk(owner, r);
    }
  }

  // What slot s held goes back into someone's hand.
  lemma Release(t: Tables, t': Tables, owner: Owners, roots: set<nat>, lent: Slots, s: Owner, f: nat)
    requires Owned(t, owner, roots, lent) && InRange(lent, s) && s.r in roots && !s.Root?
    requires OnlyVal(t, t', roots, lent, s, -1)
    requires Val(t, s) == f
    requires forall g {:trigger g in t'} :: g in t' <==> g in t && !(g == f && IsTable(s))
    requires forall g {:trigger TableOk(t', owner[f := Hand], g)} :: TableOk(t', owner[f := Hand], g)
    ensures f in owner && owner[f] == s && Owned(t', owner[f := Hand], roots, lent)
  {
    var owner' := owner[f := Hand];
    assert SlotOk(t, owner, s);
    forall u | InRange(lent, u) && u.r in roots ensures SlotOk(t', owner', u) {
      assert SlotOk(t, owner, u);
    }
    forall g ensures FrameOk(t', owner', roots, lent, g) {
      assert FrameOk(t, owner, roots, lent, g);
    }
    forall r | r in roots ensures RootOk(owner', r) {
      assert RootOk(owner, r);
    }
  }

  // ------------------------------------------------ a leaf entry is changed

  lemma LeafWalk(t: Tables, owner: Owners, roots: set<nat>, lent: Slots, r: nat, i: nat, j: nat, k: nat, e: Pte, r': nat,
      i': nat, j': nat, k': nat)
    requires Owned(t, owner, roots, lent) && r in roots && i < ENTRIES && j < ENTRIES && k < ENTRIES
    requires Low(t, r, i, j) >= 0
    requires !e.Link?
    requires r' in roots && i' < ENTRIES && j' < ENTRIES && k' < ENTRIES
    ensures Low(t, r, i, j) in t && k < |t[Low(t, r, i, j)]|
    ensures var t' := Put(t, Low(t, r, i, j), k, e);
            && Mid(t', r', i') == Mid(t, r', i') && Low(t', r', i', j') == Low(t, r', i', j')
            && Lookup(t', r', i', j', k')
            == if r' == r && i' == i && j' == j && k' == k then e else Lookup(t, r', i', j', k')
  {
    LowIs(t, owner, roots, lent, r, i, j);
    RootIs(t, owner, roots, lent, r');
    if Mid(t, r', i') >= 0 {
      MidIs(t, owner, roots, lent, r', i');
    }
    if Low(t, r', i', j') >= 0 {
      LowIs(t, owner, roots, lent, r', i', j');
    }
  }

  lemma TablesPut(t: Tables, owner: Owners, roots: set<nat>, lent: Slots, p: nat, i: nat, e: Pte, f: nat, s: Owner)
    requires Owned(t, owner, roots, lent) && p in t && i < |t[p]| && p in owner && EntryOk(owner[p], e) && f in owner
    requires f != p && f !in t && !IsTable(s)
    ensures forall g {:trigger TableOk(Put(t, p, i, e), owner[f := s], g)} :: TableOk(Put(t, p, i, e), owner[f := s], g)
  {
    var t', owner' := Put(t, p, i, e), owner[f := s];
    forall g ensures TableOk(t', owner', g) {
      assert TableOk(t, owner, g) && TableOk(t, owner, p);
    }
  }

  // mappages() stores a leaf entry for frame f.
  lemma MapLeaf(t: Tables, owner: Owners, roots: set<nat>, lent: Slots, r: nat, i: nat, j: nat, k: nat, f: nat,
      flags: nat)
    requires Owned(t, owner, roots, lent) && r in roots && InRange(lent, S0(r, i, j, k)) && Low(t, r, i, j) >= 0
    requires Lookup(t, r, i, j, k) == Empty && f in owner && owner[f] == Hand
    ensures Low(t, r, i, j) in t && k < |t[Low(t, r, i, j)]|
    ensures Owned(Put(t, Low(t, r, i, j), k, Leaf(f, flags)), owner[f := S0(r, i, j, k)], roots, lent)
  {
    var l: nat, e, s := Low(t, r, i, j), Leaf(f, flags), S0(r, i, j, k);
    LowIs(t, owner, roots, lent, r, i, j);
    var t' := Put(t, l, k, e);
    assert FrameOk(t, owner, roots, lent, f);
    LeafWalk(t, owner, roots, lent, r, i, j, k, e, r, i, j, k);
    forall u | InRange(lent, u) && u.r in roots && u != s ensures Val(t', u) == Val(t, u) {
      LeafVal(t, owner, roots, lent, r, i, j, k, e, u);
    }
    TablesPut(t, owner, roots, lent, l, k, e, f, s);
    Assign(t, t', owner, roots, lent, s, f);
  }

  lemma LeafVal(t: Tables, owner: Owners, roots: set<nat>, lent: Slots, r: nat, i: nat, j: nat, k: nat, e: Pte,
      u: Owner)
    requires Owned(t, owner, roots, lent) && r in roots && i < ENTRIES && j < ENTRIES && k < ENTRIES
    requires Low(t, r, i, j) >= 0
    requires !e.Link?
    requires InRange(lent, u) && u.r in roots && u != S0(r, i, j, k)
    ensures Low(t, r, i, j) in t && k < |t[Low(t, r, i, j)]| && Val(Put(t, Low(t, r, i, j), k, e), u) == Val(t, u)
  {
    match u
    case Root(r') => LeafWalk(t, owner, roots, lent, r, i, j, k, e, r, 0, 0, 0);
    case S2(r', i') => LeafWalk(t, owner, roots, lent, r, i, j, k, e, r', i', 0, 0);
    case S1(r', i', j') => LeafWalk(t, owner, roots, lent, r, i, j, k, e, r', i', j', 0);
    case S0(r', i', j', k') => LeafWalk(t, owner, roots, lent, r, i, j, k, e, r', i', j', k');
  }

  // uvmunmap() clears a leaf entry.
  lemma UnmapLeaf(t: Tables, owner: Owners, roots: set<nat>, lent: Slots, r: nat, i: nat, j: nat, k: nat, f: nat)
    requires Owned(t, owner, roots, lent) && r in roots && InRange(lent, S0(r, i, j, k)) && Lookup(t, r, i, j, k).Leaf?
    requires Lookup(t, r, i, j, k).frame == f
    ensures Low(t, r, i, j) >= 0 && Low(t, r, i, j) in t && k < |t[Low(t, r, i, j)]| && f in owner
    ensures owner[f] == S0(r, i, j, k)
    ensures Owned(Put(t, Low(t, r, i, j), k, Empty), owner[f := Hand], roots, lent)
  {
    var l: nat, s := Low(t, r, i, j), S0(r, i, j, k);
    LowIs(t, owner, roots, lent, r, i, j);
    var t' := Put(t, l, k, Empty);
    assert SlotOk(t, owner, s) && FrameOk(t, owner, roots, lent, f);
    LeafWalk(t, owner, roots, lent, r, i, j, k, Empty, r, i, j, k);
    forall u | InRange(lent, u) && u.r in roots && u != s ensures Val(t', u) == Val(t, u) {
      LeafVal(t, owner, roots, lent, r, i, j, k, Empty, u);
    }
    TablesPut(t, owner, roots, lent, l, k, Empty, f, Hand);
    Release(t, t', owner, roots, lent, s, f);
  }

  // ------------------------------------------------- pages of somebody else

  // Whether a slot that holds nothing counts as lent makes no difference.
  lemma Relend(t: Tables, owner: Owners, roots: set<nat>, lent: Slots, lent': Slots)
    requires Owned(t, owner, roots, lent)
    requires forall s {:trigger Val(t, s)} :: (s in lent) != (s in lent') ==> Val(t, s) == -1
    ensures Owned(t, owner, roots, lent')
  {
    forall s | InRange(lent', s) && s.r in roots ensures SlotOk(t, owner, s) {
      assert s !in lent ==> SlotOk(t, owner, s);
    }
    forall f ensures FrameOk(t, owner, roots, lent', f) {
      assert FrameOk(t, owner, roots, lent, f);
    }
  }

  // An entry that is lent may hold any page.
  lemma LentLeaf(t: Tables, owner: Owners, roots: set<nat>, lent: Slots, r: nat, i: nat, j: nat, k: nat, e: Pte)
    requires Owned(t, owner, roots, lent) && r in roots && i < ENTRIES && j < ENTRIES && k < ENTRIES
    requires S0(r, i, j, k) in lent && Low(t, r, i, j) >= 0 && !e.Link?
    ensures Low(t, r, i, j) in t && k < |t[Low(t, r, i, j)]|
    ensures Owned(Put(t, Low(t, r, i, j), k, e), owner, roots, lent)
  {
    var l: nat := Low(t, r, i, j);
    LowIs(t, owner, roots, lent, r, i, j);
    var t' := Put(t, l, k, e);
    forall u | InRange(lent, u) && u.r in roots ensures SlotOk(t', owner, u) && Val(t', u) == Val(t, u) {
      LeafVal(t, owner, roots, lent, r, i, j, k, e, u);
      assert SlotOk(t, owner, u);
    }
    forall g ensures FrameOk(t', owner, roots, lent, g) && TableOk(t', owner, g) {
      assert FrameOk(t, owner, roots, lent, g) && TableOk(t, owner, g) && TableOk(t, owner, l);
    }
  }

  // ----------------------------------------------- a table is hung or unhung

  lemma TablesHang(t: Tables, owner: Owners, roots: set<nat>, lent: Slots, p: nat, i: nat, f: nat, s: Owner)
    requires Owned(t, owner, roots, lent) && p in t && i < |t[p]| && p in owner && !owner[p].S1? && f != p && f !in t
    requires IsTable(s)
    ensures forall g {:trigger TableOk(Hang(t, p, i, f), owner[f := s], g)} :: TableOk(Hang(t, p, i, f), owner[f := s], g)
  {
    var t', owner' := Hang(t, p, i, f), owner[f := s];
    forall g ensures TableOk(t', owner', g) {
      assert TableOk(t, owner, g) && TableOk(t, owner, p);
    }
  }

  // walk() hangs a new table behind entry i of the root; no lookup changes.
  lemma HangMidWalk(t: Tables, owner: Owners, roots: set<nat>, lent: Slots, r: nat, i: nat, f: nat, r': nat, i': nat,
      j': nat, k': nat)
    requires Owned(t, owner, roots, lent) && r in roots && i < ENTRIES && Mid(t, r, i) == -1 && f in owner
    requires owner[f] == Hand
    requires r' in roots && i' < ENTRIES && j' < ENTRIES && k' < ENTRIES
    ensures r in t && i < |t[r]|
    ensures var t' := Hang(t, r, i, f);
            && Mid(t', r', i') == (if r' == r && i' == i then f else Mid(t, r', i'))
            && Low(t', r', i', j') == Low(t, r', i', j') && Lookup(t', r', i', j', k') == Lookup(t, r', i', j', k')
  {
    RootIs(t, owner, roots, lent, r);
    RootIs(t, owner, roots, lent, r');
    assert FrameOk(t, owner, roots, lent, f);
    if Mid(t, r', i') >= 0 {
      MidIs(t, owner, roots, lent, r', i');
    }
    if Low(t, r', i', j') >= 0 {
      LowIs(t, owner, roots, lent, r', i', j');
    }
  }

  lemma HangMid(t: Tables, owner: Owners, roots: set<nat>, lent: Slots, r: nat, i: nat, f: nat)
    requires Owned(t, owner, roots, lent) && r in roots && i < ENTRIES && Mid(t, r, i) == -1 && f in owner
    requires owner[f] == Hand
    ensures r in t && i < |t[r]| && Owned(Hang(t, r, i, f), owner[f := S2(r, i)], roots, lent)
  {
    var s := S2(r, i);
    RootIs(t, owner, roots, lent, r);
    assert FrameOk(t, owner, roots, lent, f);
    var t' := Hang(t, r, i, f);
    HangMidWalk(t, owner, roots, lent, r, i, f, r, i, 0, 0);
    forall u | InRange(lent, u) && u.r in roots && u != s ensures Val(t', u) == Val(t, u) {
      match u
      case Root(_) =>
      case S2(r', i') => HangMidWalk(t, owner, roots, lent, r, i, f, r', i', 0, 0);
      case S1(r', i', j') => HangMidWalk(t, owner, roots, lent, r, i, f, r', i', j', 0);
      case S0(r', i', j', k') => HangMidWalk(t, owner, roots, lent, r, i, f, r', i', j', k');
    }
    TablesHang(t, owner, roots, lent, r, i, f, s);
    Assign(t, t', owner, roots, lent, s, f);
  }

  lemma HangLowWalk(t: Tables, owner: Owners, roots: set<nat>, lent: Slots, r: nat, i: nat, j: nat, f: nat, r': nat,
      i': nat, j': nat, k': nat)
    requires Owned(t, owner, roots, lent) && r in roots && i < ENTRIES && j < ENTRIES && Mid(t, r, i) >= 0
    requires Low(t, r, i, j) == -1
    requires f in owner && owner[f] == Hand && r' in roots && i' < ENTRIES && j' < ENTRIES && k' < ENTRIES
    ensures Mid(t, r, i) in t && j < |t[Mid(t, r, i)]|
    ensures var t' := Hang(t, Mid(t, r, i), j, f);
            && Mid(t', r', i') == Mid(t, r', i')
            && Low(t', r', i', j') == (if r' == r && i' == i && j' == j then f else Low(t, r', i', j'))
            && Lookup(t', r', i', j', k') == Lookup(t, r', i', j', k')
  {
    MidIs(t, owner, roots, lent, r, i);
    RootIs(t, owner, roots, lent, r');
    assert FrameOk(t, owner, roots, lent, f);
    if Mid(t, r', i') >= 0 {
      MidIs(t, owner, roots, lent, r', i');
    }
    if Low(t, r', i', j') >= 0 {
      LowIs(t, owner, roots, lent, r', i', j');
    }
  }

  lemma HangLow(t: Tables, owner: Owners, roots: set<nat>, lent: Slots, r: nat, i: nat, j: nat, f: nat)
    requires Owned(t, owner, roots, lent) && r in roots && i < ENTRIES && j < ENTRIES && Mid(t, r, i) >= 0
    requires Low(t, r, i, j) == -1
    requires f in owner && owner[f] == Hand
    ensures Mid(t, r, i) in t && j < |t[Mid(t, r, i)]|
    ensures Owned(Hang(t, Mid(t, r, i), j, f), owner[f := S1(r, i, j)], roots, lent)
  {
    var s, m: nat := S1(r, i, j), Mid(t, r, i);
    MidIs(t, owner, roots, lent, r, i);
    assert FrameOk(t, owner, roots, lent, f);
    var t' := Hang(t, m, j, f);
    HangLowWalk(t, owner, roots, lent, r, i, j, f, r, i, j, 0);
    forall u | InRange(lent, u) && u.r in roots && u != s ensures Val(t', u) == Val(t, u) {
      match u
      case Root(_) =>
      case S2(r', i') => HangLowWalk(t, owner, roots, lent, r, i, j, f, r', i', 0, 0);
      case S1(r', i', j') => HangLowWalk(t, owner, roots, lent, r, i, j, f, r', i', j', 0);
      case S0(r', i', j', k') => HangLowWalk(t, owner, roots, lent, r, i, j, f, r', i', j', k');
    }
    TablesHang(t, owner, roots, lent, m, j, f, s);
    Assign(t, t', owner, roots, lent, s, f);
  }

  lemma TablesUnhang(t: Tables, owner: Owners, roots: set<nat>, lent: Slots, p: nat, i: nat, f: nat)
    requires Owned(t, owner, roots, lent) && p in t && i < |t[p]| && p in owner && f != p
    ensures forall g {:trigger TableOk(Unhang(t, p, i, f), owner[f := Hand], g)} ::
      TableOk(Unhang(t, p, i, f), owner[f := Hand], g)
  {
    var t', owner' := Unhang(t, p, i, f), owner[f := Hand];
    forall g ensures TableOk(t', owner', g) {
      assert TableOk(t, owner, g) && TableOk(t, owner, p);
    }
  }

  // freewalk() takes an empty table away; no lookup changes.
  lemma UnhangLowWalk(t: Tables, owner: Owners, roots: set<nat>, lent: Slots, r: nat, i: nat, j: nat, r': nat, i': nat,
      j': nat, k': nat)
    requires Owned(t, owner, roots, lent) && r in roots && i < ENTRIES && j < ENTRIES && Low(t, r, i, j) >= 0
    requires AllEmpty(t, Low(t, r, i, j))
    requires r' in roots && i' < ENTRIES && j' < ENTRIES && k' < ENTRIES
    ensures Mid(t, r, i) >= 0 && Mid(t, r, i) in t && j < |t[Mid(t, r, i)]|
    ensures var t' := Unhang(t, Mid(t, r, i), j, Low(t, r, i, j));
            && Mid(t', r', i') == Mid(t, r', i')
            && Low(t', r', i', j') == (if r' == r && i' == i && j' == j then -1 else Low(t, r', i', j'))
            && Lookup(t', r', i', j', k') == Lookup(t, r', i', j', k')
  {
    MidIs(t, owner, roots, lent, r, i);
    LowIs(t, owner, roots, lent, r, i, j);
    RootIs(t, owner, roots, lent, r');
    if Mid(t, r', i') >= 0 {
      MidIs(t, owner, roots, lent, r', i');
    }
    if Low(t, r', i', j') >= 0 {
      LowIs(t, owner, roots, lent, r', i', j');
    }
  }

  lemma UnhangLow(t: Tables, owner: Owners, roots: set<nat>, lent: Slots, r: nat, i: nat, j: nat)
    requires Owned(t, owner, roots, lent) && r in roots && i < ENTRIES && j < ENTRIES && Low(t, r, i, j) >= 0
    requires AllEmpty(t, Low(t, r, i, j))
    ensures Mid(t, r, i) >= 0 && Mid(t, r, i) in t && j < |t[Mid(t, r, i)]| && Low(t, r, i, j) in owner
    ensures owner[Low(t, r, i, j)] == S1(r, i, j)
    ensures Owned(Unhang(t, Mid(t, r, i), j, Low(t, r, i, j)), owner[Low(t, r, i, j) := Hand], roots, lent)
  {
    var s := S1(r, i, j);
    UnhangLowWalk(t, owner, roots, lent, r, i, j, r, i, j, 0);
    var m: nat, f: nat := Mid(t, r, i), Low(t, r, i, j);
    MidIs(t, owner, roots, lent, r, i);
    LowIs(t, owner, roots, lent, r, i, j);
    var t' := Unhang(t, m, j, f);
    forall u | InRange(lent, u) && u.r in roots && u != s ensures Val(t', u) == Val(t, u) {
      match u
      case Root(_) =>
      case S2(r', i') => UnhangLowWalk(t, owner, roots, lent, r, i, j, r', i', 0, 0);
      case S1(r', i', j') => UnhangLowWalk(t, owner, roots, lent, r, i, j, r', i', j', 0);
      case S0(r', i', j', k') => UnhangLowWalk(t, owner, roots, lent, r, i, j, r', i', j', k');
    }
    TablesUnhang(t, owner, roots, lent, m, j, f);
    Release(t, t', owner, roots, lent, s, f);
  }

  lemma UnhangMidWalk(t: Tables, owner: Owners, roots: set<nat>, lent: Slots, r: nat, i: nat, r': nat, i': nat, j': nat,
      k': nat)
    requires Owned(t, owner, roots, lent) && r in roots && i < ENTRIES && Mid(t, r, i) >= 0 && AllEmpty(t, Mid(t, r, i))
    requires r' in roots && i' < ENTRIES && j' < ENTRIES && k' < ENTRIES
    ensures r in t && i < |t[r]|
    ensures var t' := Unhang(t, r, i, Mid(t, r, i));
            && Mid(t', r', i') == (if r' == r && i' == i then -1 else Mid(t, r', i'))
            && Low(t', r', i', j') == Low(t, r', i', j') && Lookup(t', r', i', j', k') == Lookup(t, r', i', j', k')
  {
    MidIs(t, owner, roots, lent, r, i);
    RootIs(t, owner, roots, lent, r);
    RootIs(t, owner, roots, lent, r');
    if Mid(t, r', i') >= 0 {
      MidIs(t, owner, roots, lent, r', i');
    }
    if Low(t, r', i', j') >= 0 {
      LowIs(t, owner, roots, lent, r', i', j');
    }
  }

  lemma UnhangMid(t: Tables, owner: Owners, roots: set<nat>, lent: Slots, r: nat, i: nat)
    requires Owned(t, owner, roots, lent) && r in roots && i < ENTRIES && Mid(t, r, i) >= 0 && AllEmpty(t, Mid(t, r, i))
    ensures r in t && i < |t[r]| && Mid(t, r, i) in owner && owner[Mid(t, r, i)] == S2(r, i)
    ensures Owned(Unhang(t, r, i, Mid(t, r, i)), owner[Mid(t, r, i) := Hand], roots, lent)
  {
    var s, f: nat := S2(r, i), Mid(t, r, i);
    UnhangMidWalk(t, owner, roots, lent, r, i, r, i, 0, 0);
    MidIs(t, owner, roots, lent, r, i);
    RootIs(t, owner, roots, lent, r);
    var t' := Unhang(t, r, i, f);
    forall u | InRange(lent, u) && u.r in roots && u != s ensures Val(t', u) == Val(t, u) {
      match u
      case Root(_) =>
      case S2(r', i') => UnhangMidWalk(t, owner, roots, lent, r, i, r', i', 0, 0);
      case S1(r', i', j') => UnhangMidWalk(t, owner, roots, lent, r, i, r', i', j', 0);
      case S0(r', i', j', k') => UnhangMidWalk(t, owner, roots, lent, r, i, r', i', j', k');
    }
    TablesUnhang(t, owner, roots, lent, r, i, f);
    Release(t, t', owner, roots, lent, s, f);
  }

  // ----------------------------------------------------- making and dropping

  lemma AddRootWalk(t: Tables, owner: Owners, roots: set<nat>, lent: Slots, f: nat, r': nat, i': nat, j': nat, k': nat)
    requires Owned(t, owner, roots, lent) && f in owner && owner[f] == Hand && r' in roots + {f} && i' < ENTRIES
    requires j' < ENTRIES && k' < ENTRIES
    ensures var t' := t[f := ZeroTable(ENTRIES)];
            && (r' == f ==> Mid(t', r', i') == -1 && Low(t', r', i', j') == -1 && Lookup(t', r', i', j', k') == Empty)
            && (r' != f ==> Mid(t', r', i') == Mid(t, r', i') && Low(t', r', i', j') == Low(t, r', i', j')
                            && Lookup(t', r', i', j', k') == Lookup(t, r', i', j', k'))
  {
    assert FrameOk(t, owner, roots, lent, f);
    if r' != f {
      RootIs(t, owner, roots, lent, r');
      if Mid(t, r', i') >= 0 {
        MidIs(t, owner, roots, lent, r', i');
      }
      if Low(t, r', i', j') >= 0 {
        LowIs(t, owner, roots, lent, r', i', j');
      }
    }
  }

  lemma AddRoot(t: Tables, owner: Owners, roots: set<nat>, lent: Slots, f: nat)
    requires Owned(t, owner, roots, lent) && f in owner && owner[f] == Hand
    ensures Owned(t[f := ZeroTable(ENTRIES)], owner[f := Root(f)], roots + {f}, lent) && f !in roots
  {
    var t', owner', roots' := t[f := ZeroTable(ENTRIES)], owner[f := Root(f)], roots + {f};
    if f in roots {
      RootIs(t, owner, roots, lent, f);
    }
    forall u | InRange(lent, u) && u.r in roots' ensures SlotOk(t', owner', u) && (u.r != f ==> Val(t', u) == Val(t, u)) {
      assert u.r != f ==> SlotOk(t, owner, u);
      match u
      case Root(_) =>
      case S2(r', i') => AddRootWalk(t, owner, roots, lent, f, r', i', 0, 0);
      case S1(r', i', j') => AddRootWalk(t, owner, roots, lent, f, r', i', j', 0);
      case S0(r', i', j', k') => AddRootWalk(t, owner, roots, lent, f, r', i', j', k');
    }
    forall g ensures FrameOk(t', owner', roots', lent, g) && TableOk(t', owner', g) {
      assert FrameOk(t, owner, roots, lent, g) && TableOk(t, owner, g);
    }
    forall r | r in roots' ensures RootOk(owner', r) {
      assert r != f ==> RootOk(owner, r);
    }
  }

  lemma DropRootWalk(t: Tables, owner: Owners, roots: set<nat>, lent: Slots, r: nat, r': nat, i': nat, j': nat, k': nat)
    requires Owned(t, owner, roots, lent) && r in roots && r' in roots && r' != r && i' < ENTRIES && j' < ENTRIES
    requires k' < ENTRIES
    ensures Mid(t - {r}, r', i') == Mid(t, r', i') && Low(t - {r}, r', i', j') == Low(t, r', i', j')
    ensures Lookup(t - {r}, r', i', j', k') == Lookup(t, r', i', j', k')
  {
    RootIs(t, owner, roots, lent, r);
    RootIs(t, owner, roots, lent, r');
    if Mid(t, r', i') >= 0 {
      MidIs(t, owner, roots, lent, r', i');
    }
    if Low(t, r', i', j') >= 0 {
      LowIs(t, owner, roots, lent, r', i', j');
    }
  }

  lemma DropRoot(t: Tables, owner: Owners, roots: set<nat>, lent: Slots, r: nat)
    requires Owned(t, owner, roots, lent) && r in roots && AllEmpty(t, r)
    ensures r in owner && owner[r] == Root(r) && Owned(t - {r}, owner[r := Hand], roots - {r}, lent)
  {
    var t', owner', roots' := t - {r}, owner[r := Hand], roots - {r};
    RootIs(t, owner, roots, lent, r);
    forall u | InRange(lent, u) && u.r in roots' ensures SlotOk(t', owner', u) && Val(t', u) == Val(t, u) {
      assert SlotOk(t, owner, u);
      match u
      case Root(_) =>
      case S2(r', i') => DropRootWalk(t, owner, roots, lent, r, r', i', 0, 0);
      case S1(r', i', j') => DropRootWalk(t, owner, roots, lent, r, r', i', j', 0);
      case S0(r', i', j', k') => DropRootWalk(t, owner, roots, lent, r, r', i', j', k');
    }
    forall g ensures FrameOk(t', owner', roots', lent, g) && TableOk(t', owner', g) {
      assert FrameOk(t, owner, roots, lent, g) && TableOk(t, owner, g);
    }
    forall r' | r' in roots' ensures RootOk(owner', r') {
      assert RootOk(owner, r');
    }
  }
}
