// The free list of the Kernighan and Ritchie allocator as a value: blocks in
// address order, counted in header-sized units, starting with the empty base
// block, never overlapping and never adjacent.
module FreeList {

  datatype Blk = Blk(addr: int, size: nat) {
    function End(): int { addr + size }
    predicate Has(u: int) { addr <= u < addr + size }
  }

  // Sorted, coalesced, and every block but the base holds something.
  ghost predicate ListOk(fl: seq<Blk>) {
    && |fl| >= 1 && fl[0].size == 0
    && (forall j :: 1 <= j < |fl| ==> fl[j].size >= 1)
    && (forall i, j :: 0 <= i < j < |fl| ==> fl[i].End() < fl[j].addr)
  }

  // Unit u belongs to some free block.
  ghost predicate FreeAt(fl: seq<Blk>, u: int) {
    exists j :: 0 <= j < |fl| && fl[j].Has(u)
  }

  // b fits between the i-th block and its successor.
  predicate Between(fl: seq<Blk>, i: nat, b: Blk) {
    && i < |fl| && fl[i].End() <= b.addr && fl[i].addr < b.addr
    && (i + 1 < |fl| ==> b.End() <= fl[i + 1].addr)
  }

  predicate JoinsUp(fl: seq<Blk>, i: nat, b: Blk) {
    i + 1 < |fl| && b.End() == fl[i + 1].addr
  }

  // b together with the block right above it, if they touch.
  function Upper(fl: seq<Blk>, i: nat, b: Blk): Blk
    requires i < |fl|
  {
    if JoinsUp(fl, i, b) then Blk(b.addr, b.size + fl[i + 1].size) else b
  }

  function Rest(fl: seq<Blk>, i: nat, b: Blk): seq<Blk>
    requires i < |fl|
  {
    if JoinsUp(fl, i, b) then fl[i + 2..] else fl[i + 1..]
  }

  // free(): b after the i-th block, merged with whatever it touches.
  function Insert(fl: seq<Blk>, i: nat, b: Blk): seq<Blk>
    requires i < |fl|
  {
    var up := Upper(fl, i, b);
    if fl[i].End() == b.addr then fl[..i] + [Blk(fl[i].addr, fl[i].size + up.size)] + Rest(fl, i, b)
    else fl[..i + 1] + [up] + Rest(fl, i, b)
  }

  // malloc(): n units off the end of the i-th block.
  function Carve(fl: seq<Blk>, i: nat, n: nat): seq<Blk>
    requires i < |fl| && fl[i].size >= n
  {
    if fl[i].size == n then fl[..i] + fl[i + 1..] else fl[i := Blk(fl[i].addr, fl[i].size - n)]
  }

  function CarvedAt(fl: seq<Blk>, i: nat, n: nat): int
    requires i < |fl|
  {
    fl[i].End() - n
  }

  lemma RestShape(fl: seq<Blk>, i: nat, b: Blk)
    requires ListOk(fl) && Between(fl, i, b)
    ensures var rest, up := Rest(fl, i, b), Upper(fl, i, b);
            && (forall j :: 0 <= j < |rest| ==> rest[j].size >= 1 && up.End() < rest[j].addr)
            && (forall j, k :: 0 <= j < k < |rest| ==> rest[j].End() < rest[k].addr)
  {
    var shift := if JoinsUp(fl, i, b) then i + 2 else i + 1;
    var rest := Rest(fl, i, b);
    assert forall j :: 0 <= j < |rest| ==> rest[j] == fl[shift + j];
    if !JoinsUp(fl, i, b) && i + 1 < |fl| {
      assert forall j :: 0 < j < |rest| ==> fl[i + 1].End() < rest[j].addr;
    }
  }

  // Three pieces, each in order and separated, make a list.
  lemma Joined(a: seq<Blk>, m: Blk, c: seq<Blk>)
    requires a == [] ==> m.size == 0
    requires a != [] ==> ListOk(a) && m.size >= 1
    requires forall j :: 0 <= j < |a| ==> a[j].End() < m.addr
    requires forall j :: 0 <= j < |c| ==> c[j].size >= 1 && m.End() < c[j].addr
    requires forall j, k :: 0 <= j < k < |c| ==> c[j].End() < c[k].addr
    ensures ListOk(a + [m] + c)
  {
    var fl := a + [m] + c;
    forall j | 0 <= j < |fl|
      ensures j < |a| ==> fl[j] == a[j]
      ensures j == |a| ==> fl[j] == m
      ensures j > |a| ==> fl[j] == c[j - |a| - 1]
    {
    }
  }

  lemma PrefixOk(fl: seq<Blk>, k: nat)
    requires ListOk(fl) && 1 <= k <= |fl|
    ensures ListOk(fl[..k])
  {
  }

  lemma InsertOk(fl: seq<Blk>, i: nat, b: Blk)
    requires ListOk(fl) && b.size >= 1 && Between(fl, i, b)
    ensures ListOk(Insert(fl, i, b)) && Insert(fl, i, b)[0] == fl[0]
  {
    RestShape(fl, i, b);
    PrefixOk(fl, i + 1);
    if fl[i].End() == b.addr {
      PrefixOk(fl, i);
      Joined(fl[..i], Blk(fl[i].addr, fl[i].size + Upper(fl, i, b).size), Rest(fl, i, b));
    } else {
      Joined(fl[..i + 1], Upper(fl, i, b), Rest(fl, i, b));
    }
  }

  lemma FreeAtConcat(a: seq<Blk>, c: seq<Blk>, u: int)
    ensures FreeAt(a + c, u) <==> FreeAt(a, u) || FreeAt(c, u)
  {
    if FreeAt(a, u) {
      var j :| 0 <= j < |a| && a[j].Has(u);
      assert (a + c)[j].Has(u);
    }
    if FreeAt(c, u) {
      var j :| 0 <= j < |c| && c[j].Has(u);
      assert (a + c)[|a| + j].Has(u);
    }
  }

  lemma FreeAtOne(b: Blk, u: int)
    ensures FreeAt([b], u) <==> b.Has(u)
  {
    assert [b][0] == b;
  }

  lemma FreeAtPieces(a: seq<Blk>, m: Blk, c: seq<Blk>, u: int)
    ensures FreeAt(a + [m] + c, u) <==> FreeAt(a, u) || m.Has(u) || FreeAt(c, u)
  {
    FreeAtConcat(a + [m], c, u);
    FreeAtConcat(a, [m], u);
    FreeAtOne(m, u);
  }

  lemma UpperUnits(fl: seq<Blk>, i: nat, b: Blk, u: int)
    requires i < |fl|
    ensures FreeAt(fl[i + 1..], u) || b.Has(u) <==> Upper(fl, i, b).Has(u) || FreeAt(Rest(fl, i, b), u)
  {
    if JoinsUp(fl, i, b) {
      assert fl[i + 1..] == [fl[i + 1]] + Rest(fl, i, b);
      FreeAtConcat([fl[i + 1]], Rest(fl, i, b), u);
      FreeAtOne(fl[i + 1], u);
    }
  }

  lemma LowerUnits(fl: seq<Blk>, i: nat, b: Blk, u: int)
    requires i < |fl|
    ensures FreeAt(Insert(fl, i, b), u) <==>
      FreeAt(fl[..i], u) || fl[i].Has(u) || Upper(fl, i, b).Has(u) || FreeAt(Rest(fl, i, b), u)
  {
    var up, rest := Upper(fl, i, b), Rest(fl, i, b);
    if fl[i].End() == b.addr {
      FreeAtPieces(fl[..i], Blk(fl[i].addr, fl[i].size + up.size), rest, u);
    } else {
      FreeAtPieces(fl[..i + 1], up, rest, u);
      assert fl[..i + 1] == fl[..i] + [fl[i]];
      FreeAtConcat(fl[..i], [fl[i]], u);
      FreeAtOne(fl[i], u);
    }
  }

  // Freeing b adds exactly its units.
  lemma InsertUnits(fl: seq<Blk>, i: nat, b: Blk, u: int)
    requires i < |fl|
    ensures FreeAt(Insert(fl, i, b), u) <==> FreeAt(fl, u) || b.Has(u)
  {
    LowerUnits(fl, i, b, u);
    UpperUnits(fl, i, b, u);
    assert fl == fl[..i] + [fl[i]] + fl[i + 1..];
    FreeAtPieces(fl[..i], fl[i], fl[i + 1..], u);
  }

  lemma CarveOk(fl: seq<Blk>, i: nat, n: nat)
    requires ListOk(fl) && 1 <= i < |fl| && 1 <= n <= fl[i].size
    ensures ListOk(Carve(fl, i, n)) && Carve(fl, i, n)[0] == fl[0]
  {
    var cut := Carve(fl, i, n);
    if fl[i].size == n {
      assert forall j :: 0 <= j < |cut| ==> cut[j] == fl[if j < i then j else j + 1];
    }
  }

  // Allocating takes exactly the carved units, which were free.
  lemma CarveUnits(fl: seq<Blk>, i: nat, n: nat, u: int)
    requires ListOk(fl) && 1 <= i < |fl| && 1 <= n <= fl[i].size
    ensures var got := Blk(CarvedAt(fl, i, n), n);
            && (got.Has(u) ==> FreeAt(fl, u))
            && (FreeAt(Carve(fl, i, n), u) <==> FreeAt(fl, u) && !got.Has(u))
  {
    var got := Blk(CarvedAt(fl, i, n), n);
    var left := Blk(fl[i].addr, fl[i].size - n);
    assert fl == fl[..i] + [fl[i]] + fl[i + 1..];
    FreeAtPieces(fl[..i], fl[i], fl[i + 1..], u);
    FreeAtPieces(fl[..i], left, fl[i + 1..], u);
    assert Carve(fl, i, n) == if left.size == 0 then fl[..i] + fl[i + 1..] else fl[..i] + [left] + fl[i + 1..];
    FreeAtConcat(fl[..i], fl[i + 1..], u);
    assert fl[i].Has(u) <==> left.Has(u) || got.Has(u);
    if got.Has(u) {
      OnlyOne(fl, i, u);
    }
  }

  // Blocks do not overlap: a unit of block i is in no other block.
  lemma OnlyOne(fl: seq<Blk>, i: nat, u: int)
    requires ListOk(fl) && i < |fl| && fl[i].Has(u)
    ensures !FreeAt(fl[..i], u) && !FreeAt(fl[i + 1..], u)
  {
    forall j | 0 <= j < |fl| && j != i ensures !fl[j].Has(u) {
    }
  }

  // Freeing a block that was just carved gives the list back.
  lemma CarveThenInsert(fl: seq<Blk>, i: nat, n: nat, j: nat)
    requires ListOk(fl) && 1 <= i < |fl| && 1 <= n <= fl[i].size
    requires Between(Carve(fl, i, n), j, Blk(CarvedAt(fl, i, n), n))
    ensures Insert(Carve(fl, i, n), j, Blk(CarvedAt(fl, i, n), n)) == fl
  {
    if fl[i].size == n {
      WholeBack(fl, i, j);
    } else {
      TailBack(fl, i, n, j);
    }
  }

  lemma WholeBack(fl: seq<Blk>, i: nat, j: nat)
    requires ListOk(fl) && 1 <= i < |fl| && Between(fl[..i] + fl[i + 1..], j, fl[i])
    ensures Insert(fl[..i] + fl[i + 1..], j, fl[i]) == fl
  {
    var cut := fl[..i] + fl[i + 1..];
    assert cut[i - 1] == fl[i - 1] && (i < |cut| ==> cut[i] == fl[i + 1]);
    assert j == i - 1;
    assert cut[..i] == fl[..i] && cut[i..] == fl[i + 1..];
    assert !JoinsUp(cut, j, fl[i]);
    assert fl == fl[..i] + [fl[i]] + fl[i + 1..];
  }

  lemma TailBack(fl: seq<Blk>, i: nat, n: nat, j: nat)
    requires ListOk(fl) && 1 <= i < |fl| && 1 <= n < fl[i].size
    requires Between(Carve(fl, i, n), j, Blk(CarvedAt(fl, i, n), n))
    ensures Insert(Carve(fl, i, n), j, Blk(CarvedAt(fl, i, n), n)) == fl
  {
    var cut, b := Carve(fl, i, n), Blk(CarvedAt(fl, i, n), n);
    assert j == i;
    assert cut[..i] == fl[..i] && cut[i + 1..] == fl[i + 1..];
    assert !JoinsUp(cut, j, b);
    assert fl == fl[..i] + [fl[i]] + fl[i + 1..];
  }
}
