// The log entries of a transaction: how many an operation needs, and when it needs them all.
module FsLog {
  import opened Common
  import opened Bitmap
  import opened FsSpec

  const BPB := BSIZE * 8

  // The bitmap block of block b.
  function BitmapOf(b: nat, start: nat): nat {
    b / BPB + start
  }

  // log_write(): a block already in the log is absorbed.
  function LogAdd(log: seq<nat>, b: nat): seq<nat> {
    if b in log then log else log + [b]
  }

  // Entries used, and those that the indirect block may still need.
  function Cost(ind: nat, log: seq<nat>): nat {
    |log| + if ind == 0 then 2 else if ind in log then 0 else 1
  }

  // Blocks that the range off..off+n touches.
  function Touched(off: nat, n: nat): nat {
    if n == 0 then 0 else (off + n - 1) / BSIZE - off / BSIZE + 1
  }

  // Log entries for the data and the bitmap: a block that starts below off is already
  // mapped, unless it can be a hole.
  function Bound(off: nat, n: nat, hole: bool): int {
    2 * Touched(off, n) - if n > 0 && off % BSIZE != 0 && !hole then 1 else 0
  }

  // The log entries so far stay within the bound for the bytes written so far.
  ghost predicate Spent(ind: nat, log: seq<nat>, off: nat, tot: nat, n: nat, cost: nat, hole: bool) {
    Cost(ind, log) <= cost + Bound(off, tot, hole) && (0 < tot < n ==> (off + tot) % BSIZE == 0)
  }

  // A chunk of filewrite() needs at most nine entries before the inode's.
  lemma BoundChunk(off: nat, n: nat)
    requires n <= 3 * BSIZE
    ensures Cost(0, []) + Bound(off, n, false) <= MAXOPBLOCKS - 1 && Cost(0, []) + Bound(off, n, true) <= MAXOPBLOCKS
    ensures forall ind :: Cost(ind, []) <= Cost(0, [])
  {
  }

  // Log entries for the data and the bitmap of one round at offset p.
  function Each(p: nat, hole: bool): nat {
    if p % BSIZE != 0 && !hole then 1 else 2
  }

  lemma BoundStep(off: nat, tot: nat, m: nat, n: nat, hole: bool)
    requires tot < n && m == Min(n - tot, BSIZE - (off + tot) % BSIZE)
    requires tot > 0 ==> (off + tot) % BSIZE == 0
    ensures Bound(off, tot, hole) + Each(off + tot, hole) == Bound(off, tot + m, hole) <= Bound(off, n, hole)
    ensures tot + m < n ==> (off + tot + m) % BSIZE == 0
  {
    var p := off + tot;
    LastByte(p, m);
    assert tot > 0 ==> (p - 1) / BSIZE == p / BSIZE - 1;
    assert (p + m - 1) / BSIZE <= (off + n - 1) / BSIZE;
  }

  lemma LastByte(p: nat, m: nat)
    requires 1 <= m <= BSIZE - p % BSIZE
    ensures (p + m - 1) / BSIZE == p / BSIZE && (m == BSIZE - p % BSIZE ==> (p + m) % BSIZE == 0)
  {
  }

  lemma CostAlloc(ind: nat, log: seq<nat>, m: nat, b: nat)
    ensures Cost(ind, LogAdd(LogAdd(log, m), b)) <= Cost(ind, log) + 2
    ensures b in LogAdd(LogAdd(log, m), b)
  {
    assert ind in log ==> ind in LogAdd(LogAdd(log, m), b);
  }

  lemma CostIndirect(log: seq<nat>, m: nat, ind: nat)
    ensures ind != 0 ==> Cost(ind, LogAdd(LogAdd(log, m), ind)) <= Cost(0, log)
  {
  }

  lemma CostLeaf(ind: nat, log: seq<nat>, m: nat, b: nat)
    requires ind != 0
    ensures Cost(ind, LogAdd(LogAdd(LogAdd(log, m), b), ind)) <= Cost(ind, log) + 2
    ensures b in LogAdd(LogAdd(LogAdd(log, m), b), ind)
  {
    var log' := LogAdd(LogAdd(log, m), b);
    assert ind in log ==> ind in log';
    assert b in log';
  }

  // ------------------------------------------------------- the bound is met

  // The bitmap, the indirect block of an inode, and the log.
  datatype Tally = Tally(bits: seq<bool>, ind: nat, log: seq<nat>)

  // Where the bitmap blocks and the data blocks begin.
  datatype Layout = Layout(bitmap: nat, data: nat)

  ghost predicate FreeApart(t: Tally, at: Layout, b: nat, c: nat)
    requires b < |t.bits| && c < |t.bits|
  {
    t.bits[b] || t.bits[c] || BitmapOf(b, at.bitmap) != BitmapOf(c, at.bitmap)
  }

  ghost predicate FreeUnlogged(t: Tally, at: Layout, b: nat)
    requires b < |t.bits|
  {
    t.bits[b] || (at.data <= b && b !in t.log && BitmapOf(b, at.bitmap) !in t.log)
  }

  // Any two free blocks have different bitmap blocks, and none of either is in the log.
  ghost predicate Tidy(t: Tally, at: Layout) {
    && (forall b {:trigger BitmapOf(b, at.bitmap)} :: 0 <= b < |t.bits| ==> BitmapOf(b, at.bitmap) < at.data)
    && (forall x :: x in t.log ==> at.bitmap <= x)
    && (forall b {:trigger FreeUnlogged(t, at, b)} :: 0 <= b < |t.bits| ==> FreeUnlogged(t, at, b))
    && (forall b, c {:trigger FreeApart(t, at, b, c)} :: 0 <= b < c < |t.bits| ==> FreeApart(t, at, b, c))
  }

  ghost predicate IndLogged(t: Tally) {
    t.ind != 0 && t.ind in t.log
  }

  // From a tidy state on, exactly n more entries are used or bespoken.
  ghost predicate Exact(t: Tally, t': Tally, at: Layout, n: nat) {
    Tidy(t, at) ==> Tidy(t', at) && Cost(t'.ind, t'.log) == Cost(t.ind, t.log) + n
  }

  // Whatever was allocated is in the log.
  ghost predicate NewLogged(t: Tally, t': Tally) {
    && |t.bits| == |t'.bits| && (forall x {:trigger Kept(t, t', x)} :: Kept(t, t', x))
    && (forall b {:trigger AllocLogged(t, t', b)} :: 0 <= b < |t.bits| ==> AllocLogged(t, t', b))
  }

  ghost predicate Kept(t: Tally, t': Tally, x: nat) {
    x in t.log ==> x in t'.log
  }

  ghost predicate AllocLogged(t: Tally, t': Tally, b: nat)
    requires b < |t.bits| == |t'.bits|
  {
    t'.bits[b] && !t.bits[b] ==> b in t'.log
  }

  lemma LoggedSame(t: Tally, t': Tally)
    requires t'.bits == t.bits && t'.log == t.log
    ensures NewLogged(t, t')
  {
  }

  lemma LoggedThen(t: Tally, t1: Tally, t2: Tally)
    requires NewLogged(t, t1) && NewLogged(t1, t2)
    ensures NewLogged(t, t2)
  {
    forall x ensures Kept(t, t2, x) {
      assert Kept(t, t1, x) && Kept(t1, t2, x);
    }
    forall b | 0 <= b < |t.bits| ensures AllocLogged(t, t2, b) {
      assert AllocLogged(t, t1, b) && AllocLogged(t1, t2, b) && Kept(t1, t2, b);
    }
  }

  lemma LoggedOne(t: Tally, x: nat)
    ensures NewLogged(t, t.(log := LogAdd(t.log, x)))
  {
  }

  lemma LoggedAlloc(t: Tally, at: Layout, r: nat, ind: nat)
    requires r < |t.bits|
    ensures NewLogged(t, Allocated(t, at, r, ind))
  {
  }

  // The blocks, their owners, the bitmap and the log of the transaction at some moment.
  datatype View = View(blocks: seq<Block>, owner: map<nat, Slot>, bits: seq<bool>, log: seq<nat>)

  predicate StaysLogged(v: View, v': View, x: nat) {
    x in v.log ==> x in v'.log
  }

  predicate BitLogged(v: View, v': View, start: nat, b: nat)
    requires b < |v.bits| == |v'.bits|
  {
    v'.bits[b] == v.bits[b] || BitmapOf(b, start) in v'.log
  }

  // Every bitmap block that has changed is in the log.
  ghost predicate BitsLogged(v: View, v': View, start: nat) {
    && |v.bits| == |v'.bits| && (forall x {:trigger StaysLogged(v, v', x)} :: StaysLogged(v, v', x))
    && (forall b {:trigger BitLogged(v, v', start, b)} :: 0 <= b < |v.bits| ==> BitLogged(v, v', start, b))
  }

  predicate BlockLogged(v: View, v': View, i: nat, b: nat)
    requires b < |v.blocks| == |v'.blocks|
  {
    v'.blocks[b] == v.blocks[b] || (b in v'.log && b in v'.owner && v'.owner[b].i == i)
  }

  predicate OwnerStays(v: View, v': View, b: nat) {
    b in v.owner ==> b in v'.owner && v'.owner[b] == v.owner[b]
  }

  // So is every block that has changed, and it belongs to file i.
  ghost predicate Logs(v: View, v': View, i: nat, start: nat) {
    && BitsLogged(v, v', start) && |v.blocks| == |v'.blocks|
    && (forall b {:trigger BlockLogged(v, v', i, b)} :: 0 <= b < |v.blocks| ==> BlockLogged(v, v', i, b))
    && (forall b {:trigger OwnerStays(v, v', b)} :: OwnerStays(v, v', b))
  }

  // The same, except that torn bytes of the block at offset p may have changed.
  ghost predicate LogsBut(v: View, v': View, i: nat, start: nat, p: nat, torn: nat) {
    && BitsLogged(v, v', start) && |v.blocks| == |v'.blocks|
    && (forall b {:trigger BlockLogged(v, v', i, b)} ::
          0 <= b < |v.blocks| ==> BlockLogged(v, v', i, b) || (torn > 0 && InBlock(v'.owner, b, i, p)))
    && (forall b {:trigger OwnerStays(v, v', b)} :: OwnerStays(v, v', b))
  }

  // b is the block of file i that offset p falls into.
  predicate InBlock(owner: map<nat, Slot>, b: nat, i: nat, p: nat) {
    b in owner && owner[b] == DataSlot(i, p / BSIZE)
  }

  lemma BitsThen(v0: View, v1: View, v2: View, start: nat)
    requires BitsLogged(v0, v1, start) && BitsLogged(v1, v2, start)
    ensures BitsLogged(v0, v2, start)
  {
    forall x ensures StaysLogged(v0, v2, x) {
      assert StaysLogged(v0, v1, x) && StaysLogged(v1, v2, x);
    }
    forall b | 0 <= b < |v0.bits| ensures BitLogged(v0, v2, start, b) {
      assert BitLogged(v0, v1, start, b) && BitLogged(v1, v2, start, b) && StaysLogged(v1, v2, BitmapOf(b, start));
    }
  }

  lemma LogsThen(v0: View, v1: View, v2: View, i: nat, start: nat)
    requires Logs(v0, v1, i, start) && Logs(v1, v2, i, start)
    ensures Logs(v0, v2, i, start)
  {
    BitsThen(v0, v1, v2, start);
    forall b | 0 <= b < |v0.blocks| ensures BlockLogged(v0, v2, i, b) {
      assert BlockLogged(v0, v1, i, b) && BlockLogged(v1, v2, i, b) && StaysLogged(v1, v2, b) && OwnerStays(v1, v2, b);
    }
    forall b ensures OwnerStays(v0, v2, b) {
      assert OwnerStays(v0, v1, b) && OwnerStays(v1, v2, b);
    }
  }

  lemma LogsNone(v: View, i: nat, start: nat)
    ensures Logs(v, v, i, start)
  {
  }

  // Block r is allocated for slot s.
  lemma LogsAlloc(v: View, v': View, start: nat, r: nat, s: Slot)
    requires r < |v.blocks| == |v.bits| && r !in v.owner
    requires v' == View(v.blocks[r := Zeros(BSIZE)], v.owner[r := s], v.bits[r := true],
                        LogAdd(LogAdd(v.log, BitmapOf(r, start)), r))
    ensures Logs(v, v', s.i, start)
  {
  }

  // And its number is stored in the indirect block ind of that file.
  lemma LogsLeaf(v: View, v': View, start: nat, r: nat, s: Slot, ind: nat, data: Block)
    requires r < |v.blocks| == |v.bits| && r !in v.owner && ind < |v.blocks| && ind in v.owner && v.owner[ind].i == s.i
    requires v' == View(v.blocks[r := Zeros(BSIZE)][ind := data], v.owner[r := s], v.bits[r := true],
                        LogAdd(LogAdd(LogAdd(v.log, BitmapOf(r, start)), r), ind))
    ensures Logs(v, v', s.i, start)
  {
    var mid := View(v.blocks[r := Zeros(BSIZE)], v.owner[r := s], v.bits[r := true],
                    LogAdd(LogAdd(v.log, BitmapOf(r, start)), r));
    LogsAlloc(v, mid, start, r, s);
    LogsFill(mid, ind, data, s.i, start);
    LogsThen(v, mid, v', s.i, start);
  }

  // Block b is freed.
  lemma BitsFree(v: View, v': View, start: nat, b: nat)
    requires b < |v.bits| && v'.bits == v.bits[b := false] && v'.log == LogAdd(v.log, BitmapOf(b, start))
    ensures BitsLogged(v, v', start)
  {
  }

  lemma BitsSame(v: View, v': View, start: nat)
    requires v'.bits == v.bits && v.log <= v'.log
    ensures BitsLogged(v, v', start)
  {
  }

  // Block x of file i is filled.
  lemma LogsFill(v: View, x: nat, data: Block, i: nat, start: nat)
    requires x < |v.blocks| && x in v.owner && v.owner[x].i == i
    ensures Logs(v, v.(blocks := v.blocks[x := data], log := LogAdd(v.log, x)), i, start)
  {
  }

  lemma TornLogs(v: View, mid: View, i: nat, start: nat, p: nat, addr: nat, e: seq<Byte>)
    requires Logs(v, mid, i, start) && addr < |mid.blocks| && |mid.blocks[addr]| == BSIZE && |e| <= BSIZE - p % BSIZE
    requires InBlock(mid.owner, addr, i, p)
    ensures LogsBut(v, mid.(blocks := mid.blocks[addr := Splice(mid.blocks[addr], p, e)]), i, start, p, |e|)
  {
    var v' := mid.(blocks := mid.blocks[addr := Splice(mid.blocks[addr], p, e)]);
    assert |e| == 0 ==> Splice(mid.blocks[addr], p, e) == mid.blocks[addr];
    forall x ensures StaysLogged(v, v', x) {
      assert StaysLogged(v, mid, x);
    }
    forall b | 0 <= b < |v.bits| ensures BitLogged(v, v', start, b) {
      assert BitLogged(v, mid, start, b);
    }
    forall b | 0 <= b < |v.blocks| ensures BlockLogged(v, v', i, b) || (|e| > 0 && InBlock(v'.owner, b, i, p)) {
      assert BlockLogged(v, mid, i, b);
    }
    forall b ensures OwnerStays(v, v', b) {
      assert OwnerStays(v, mid, b);
    }
  }

  // Block r is allocated: its bitmap block and the block itself go into the log.
  function Allocated(t: Tally, at: Layout, r: nat, ind: nat): Tally
    requires r < |t.bits|
  {
    Tally(t.bits[r := true], ind, LogAdd(LogAdd(t.log, BitmapOf(r, at.bitmap)), r))
  }

  lemma AllocUnlogged(t: Tally, at: Layout, r: nat, ind: nat, b: nat)
    requires r < |t.bits| && !t.bits[r] && b < |t.bits| && BitmapOf(r, at.bitmap) < at.data
    requires BitmapOf(b, at.bitmap) < at.data
    requires FreeUnlogged(t, at, b) && at.data <= r && (b < r ==> FreeApart(t, at, b, r))
    requires (r < b ==> FreeApart(t, at, r, b))
    ensures FreeUnlogged(Allocated(t, at, r, ind), at, b)
  {
  }

  lemma AllocTidy(t: Tally, at: Layout, r: nat, ind: nat)
    requires Tidy(t, at) && r < |t.bits| && !t.bits[r]
    ensures BitmapOf(r, at.bitmap) !in t.log && r !in t.log + [BitmapOf(r, at.bitmap)]
    ensures Tidy(Allocated(t, at, r, ind), at)
  {
    assert FreeUnlogged(t, at, r) && at.bitmap <= BitmapOf(r, at.bitmap) < at.data;
    var t' := Allocated(t, at, r, ind);
    forall b | 0 <= b < |t'.bits| ensures FreeUnlogged(t', at, b) {
      assert FreeUnlogged(t, at, b) && BitmapOf(b, at.bitmap) < at.data;
      assert (b < r ==> FreeApart(t, at, b, r)) && (r < b ==> FreeApart(t, at, r, b));
      AllocUnlogged(t, at, r, ind, b);
    }
    forall b, c | 0 <= b < c < |t'.bits| ensures FreeApart(t', at, b, c) {
      assert FreeApart(t, at, b, c);
    }
  }

  // A block in use goes into the log.
  lemma UsedTidy(t: Tally, at: Layout, x: nat)
    requires Tidy(t, at) && x < |t.bits| && t.bits[x] && at.data <= x
    ensures Tidy(t.(log := LogAdd(t.log, x)), at)
  {
    var t' := t.(log := LogAdd(t.log, x));
    assert BitmapOf(x, at.bitmap) < at.data;
    forall b | 0 <= b < |t'.bits| ensures FreeUnlogged(t', at, b) {
      assert FreeUnlogged(t, at, b);
    }
    forall b, c | 0 <= b < c < |t'.bits| ensures FreeApart(t', at, b, c) {
      assert FreeApart(t, at, b, c);
    }
  }

  // A new block in addrs, which is not the indirect one.
  lemma DirectExact(t: Tally, at: Layout, r: nat)
    requires r < |t.bits| && !t.bits[r] && r != t.ind
    requires (t.ind != 0 ==> t.ind < |t.bits| && t.bits[t.ind] && at.data <= t.ind)
    ensures Exact(t, Allocated(t, at, r, t.ind), at, 2)
  {
    if Tidy(t, at) {
      AllocTidy(t, at, r, t.ind);
      assert BitmapOf(r, at.bitmap) < at.data;
    }
  }

  // A new indirect block was bespoken.
  lemma IndirectExact(t: Tally, at: Layout, r: nat)
    requires r < |t.bits| && !t.bits[r] && t.ind == 0 && r != 0
    ensures Exact(t, Allocated(t, at, r, r), at, 0)
  {
    if Tidy(t, at) {
      AllocTidy(t, at, r, r);
    }
  }

  // A new block in a word of the indirect block.
  lemma LeafExact(t: Tally, at: Layout, r: nat)
    requires r < |t.bits| && !t.bits[r] && 0 < t.ind < |t.bits| && t.bits[t.ind] && at.data <= t.ind
    ensures var log := LogAdd(LogAdd(LogAdd(t.log, BitmapOf(r, at.bitmap)), r), t.ind);
            Exact(t, Tally(t.bits[r := true], t.ind, log), at, 2) && t.ind in log
  {
    if Tidy(t, at) {
      AllocTidy(t, at, r, t.ind);
      assert BitmapOf(r, at.bitmap) < at.data;
      UsedTidy(Allocated(t, at, r, t.ind), at, t.ind);
    }
  }

  // The block that the write fills, not in the log before.
  lemma DataExact(t: Tally, at: Layout, x: nat)
    requires x < |t.bits| && t.bits[x] && at.data <= x && x != t.ind && x !in t.log
    ensures Exact(t, t.(log := LogAdd(t.log, x)), at, 1)
  {
    if Tidy(t, at) {
      UsedTidy(t, at, x);
    }
  }

  // What changes when word j of the indirect block of file i gets the new block r.
  ghost predicate NewLeaf(t: Tally, t': Tally, owner: map<nat, Slot>, owner': map<nat, Slot>, i: nat, j: nat, r: nat,
      at: Layout) {
    && owner' == owner[r := Leaf(i, j)]
    && Cost(t'.ind, t'.log) <= Cost(t.ind, t.log) + 2 && r in t'.log && IndLogged(t') && Exact(t, t', at, 2)
    && NewLogged(t, t')
  }

  lemma NewLeafStep(t: Tally, owner: map<nat, Slot>, i: nat, j: nat, r: nat, at: Layout)
    requires r < |t.bits| && !t.bits[r] && 0 < t.ind < |t.bits| && t.bits[t.ind] && at.data <= t.ind
    ensures var log := LogAdd(LogAdd(LogAdd(t.log, BitmapOf(r, at.bitmap)), r), t.ind);
            NewLeaf(t, Tally(t.bits[r := true], t.ind, log), owner, owner[r := Leaf(i, j)], i, j, r, at)
  {
    CostLeaf(t.ind, t.log, BitmapOf(r, at.bitmap), r);
    LeafExact(t, at, r);
    LoggedAlloc(t, at, r, t.ind);
    LoggedOne(Allocated(t, at, r, t.ind), t.ind);
    LoggedThen(t, Allocated(t, at, r, t.ind),
               Tally(t.bits[r := true], t.ind, LogAdd(Allocated(t, at, r, t.ind).log, t.ind)));
  }

  // The bn of the bn-th block of a file, -1 for the indirect block.
  function Index(s: Slot): int {
    match s
    case Direct(_, k) => if k < NDIRECT then k else -1
    case Leaf(_, j) => NDIRECT + j
  }

  // File i has no block from the n-th on.
  ghost predicate NoneFrom(owner: map<nat, Slot>, i: nat, n: nat) {
    forall b :: b in owner && owner[b].i == i ==> Index(owner[b]) < n
  }

  // Only the bn-th block of file i and its indirect block are new.
  ghost predicate Grew(owner: map<nat, Slot>, owner': map<nat, Slot>, i: nat, bn: nat) {
    forall b :: b in owner' ==>
      (b in owner && owner[b] == owner'[b]) || owner'[b] == DataSlot(i, bn) || owner'[b] == Direct(i, NDIRECT)
  }

  // Block x of a log is not the bn-th block of file i.
  ghost predicate Unlogged(owner: map<nat, Slot>, log: seq<nat>, i: nat, bn: nat) {
    forall x :: x in log && x in owner ==> owner[x] != DataSlot(i, bn)
  }

  function Ceil(o: nat): nat {
    (o + BSIZE - 1) / BSIZE
  }

  // From here on file i has no blocks: where the next round starts, or after the block
  // that the first round starts in.
  function Next(off: nat, tot: nat, hole: bool): nat {
    if tot == 0 && hole then off / BSIZE else Ceil(off + tot)
  }

  // After tot bytes from off on, the log has exactly the entries that the bound allows.
  ghost predicate Met(t: Tally, at: Layout, owner: map<nat, Slot>, i: nat, off: nat, tot: nat, cost: nat, hole: bool) {
    && Tidy(t, at) && Cost(t.ind, t.log) == cost + Bound(off, tot, hole) && NoneFrom(owner, i, Next(off, tot, hole))
    && (tot == 0 && off % BSIZE != 0 && !hole ==> Unlogged(owner, t.log, i, off / BSIZE))
    && (tot > 0 && off / BSIZE < NDIRECT <= (off + tot - 1) / BSIZE ==> IndLogged(t))
  }

  lemma MetStep(t: Tally, t': Tally, at: Layout, owner: map<nat, Slot>, owner': map<nat, Slot>, i: nat, off: nat,
      tot: nat, m: nat,
      n: nat, cost: nat, hole: bool)
    requires tot < n && m == Min(n - tot, BSIZE - (off + tot) % BSIZE) && (tot > 0 ==> (off + tot) % BSIZE == 0)
    requires Met(t, at, owner, i, off, tot, cost, hole) && Grew(owner, owner', i, (off + tot) / BSIZE)
    requires Exact(t, t', at, Each(off + tot, hole))
    requires (off + tot) % BSIZE == 0 && NDIRECT <= (off + tot) / BSIZE ==> IndLogged(t')
    ensures Met(t', at, owner', i, off, tot + m, cost, hole)
  {
    RoundEnd(off, tot, m, n, hole);
    GrewNone(owner, owner', i, Next(off, tot, hole), (off + tot) / BSIZE);
  }

  // What one round of a write at offset p does to the log.
  ghost predicate ChunkExact(t: Tally, t': Tally, at: Layout, owner: map<nat, Slot>, owner': map<nat, Slot>, i: nat,
      p: nat,
      hole: bool)
  {
    && Grew(owner, owner', i, p / BSIZE)
    && (p % BSIZE != 0 && !hole && Unlogged(owner, t.log, i, p / BSIZE) ==> Exact(t, t', at, 1))
    && (NoneFrom(owner, i, p / BSIZE) ==> Exact(t, t', at, 2) && (NDIRECT <= p / BSIZE ==> IndLogged(t')))
  }

  // Within the bound, and with all that was allocated in the log.
  ghost predicate RoundCost(t: Tally, t': Tally, p: nat, hole: bool) {
    Cost(t'.ind, t'.log) <= Cost(t.ind, t.log) + Each(p, hole) && NewLogged(t, t')
  }

  // bmap() finds block was or maps a new one.
  lemma MapCost(t: Tally, t': Tally, p: nat, was: nat, hole: bool)
    requires Cost(t'.ind, t'.log) <= Cost(t.ind, t.log) + 2 && NewLogged(t, t') && (was != 0 ==> t' == t)
    requires p % BSIZE != 0 && !hole ==> was != 0
    ensures RoundCost(t, t', p, hole)
  {
  }

  // What bmap() did: block addr is the one that was there, or a new one.
  ghost predicate Mapped(t: Tally, t': Tally, at: Layout, owner: map<nat, Slot>, owner': map<nat, Slot>, i: nat,
      p: nat, was: nat,
      addr: nat, hole: bool)
  {
    && Grew(owner, owner', i, p / BSIZE) && (was != 0 ==> t' == t && owner' == owner && addr == was)
    && (was == 0 ==> addr in t'.log && Exact(t, t', at, 2) && (p / BSIZE >= NDIRECT ==> IndLogged(t')))
    && (NoneFrom(owner, i, p / BSIZE) ==> was == 0) && (p % BSIZE != 0 && !hole ==> was != 0)
    && at.data <= addr < |t'.bits| && t'.bits[addr] && addr != t'.ind
    && addr in owner' && owner'[addr] == DataSlot(i, p / BSIZE)
  }

  // Then the block addr is filled.
  lemma ChunkStep(t: Tally, t': Tally, at: Layout, owner: map<nat, Slot>, owner': map<nat, Slot>, i: nat, p: nat,
      was: nat, addr: nat,
      hole: bool)
    requires Mapped(t, t', at, owner, owner', i, p, was, addr, hole) && RoundCost(t, t', p, hole)
    ensures var t2 := t'.(log := LogAdd(t'.log, addr));
            ChunkExact(t, t2, at, owner, owner', i, p, hole) && RoundCost(t, t2, p, hole)
  {
    LoggedOne(t', addr);
    LoggedThen(t, t', t'.(log := LogAdd(t'.log, addr)));
    if was == 0 {
      assert t'.(log := LogAdd(t'.log, addr)) == t';
    } else if addr !in t.log {
      DataExact(t, at, addr);
    }
  }

  lemma RoundMet(t: Tally, t': Tally, at: Layout, owner: map<nat, Slot>, owner': map<nat, Slot>, i: nat, off: nat,
      tot: nat, m: nat,
      n: nat, cost: nat, p: nat, hole: bool)
    requires p == off + tot && tot < n && m == Min(n - tot, BSIZE - p % BSIZE) && (0 < tot < n ==> p % BSIZE == 0)
    requires ChunkExact(t, t', at, owner, owner', i, p, hole)
    ensures Met(t, at, owner, i, off, tot, cost, hole) ==> Met(t', at, owner', i, off, tot + m, cost, hole)
  {
    if Met(t, at, owner, i, off, tot, cost, hole) {
      CeilStep(p, m);
      assert p % BSIZE != 0 ==> tot == 0 && p == off;
      MetStep(t, t', at, owner, owner', i, off, tot, m, n, cost, hole);
    }
  }

  // Where a round of m bytes ends.
  lemma RoundEnd(off: nat, tot: nat, m: nat, n: nat, hole: bool)
    requires tot < n && m == Min(n - tot, BSIZE - (off + tot) % BSIZE) && (tot > 0 ==> (off + tot) % BSIZE == 0)
    ensures m > 0 && Bound(off, tot, hole) + Each(off + tot, hole) == Bound(off, tot + m, hole)
    ensures Next(off, tot, hole) <= (off + tot) / BSIZE + 1 == Ceil(off + (tot + m))
    ensures (off + (tot + m) - 1) / BSIZE == (off + tot) / BSIZE && ((off + tot) % BSIZE != 0 ==> tot == 0)
  {
    BoundStep(off, tot, m, n, hole);
    LastByte(off + tot, m);
    CeilStep(off + tot, m);
  }

  lemma GrewNone(owner: map<nat, Slot>, owner': map<nat, Slot>, i: nat, n: nat, bn: nat)
    requires NoneFrom(owner, i, n) && n <= bn + 1 && Grew(owner, owner', i, bn)
    ensures NoneFrom(owner', i, bn + 1)
  {
    assert Index(DataSlot(i, bn)) == bn && Index(Direct(i, NDIRECT)) == -1;
  }

  lemma CeilStep(p: nat, m: nat)
    requires 1 <= m <= BSIZE - p % BSIZE
    ensures Ceil(p) <= p / BSIZE + 1 == Ceil(p + m) && (p % BSIZE == 0 ==> Ceil(p) == p / BSIZE)
  {
  }

  // A write from off on starts inside the last direct block of file i, which has no
  // block after that one and no indirect block, on a disk whose free blocks are apart.
  // The last direct block itself is there or it is a hole.
  ghost predicate UsesAll(t: Tally, at: Layout, owner: map<nat, Slot>, i: nat, off: nat, hole: bool) {
    && Tidy(t, at) && t.ind == 0 && t.log == [] && off / BSIZE == NDIRECT - 1 && off % BSIZE != 0
    && NoneFrom(owner, i, if hole then NDIRECT - 1 else NDIRECT)
  }

  // A full chunk from there on needs ten entries, or eleven.
  lemma FullChunk(t: Tally, at: Layout, owner: map<nat, Slot>, i: nat, off: nat, hole: bool)
    requires UsesAll(t, at, owner, i, off, hole)
    ensures Met(t, at, owner, i, off, 0, Cost(0, []), hole)
    ensures Cost(0, []) + Bound(off, 3 * BSIZE, hole) + 1 == MAXOPBLOCKS + if hole then 1 else 0
    ensures off / BSIZE < NDIRECT <= (off + 3 * BSIZE - 1) / BSIZE
  {
  }
}
