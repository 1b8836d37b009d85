// The block allocator, the block map and the byte operations of inodes, in place.
module Fs {
  import opened Common
  import opened Bitmap
  import opened FsSpec
  import opened FsLog

  const IPB := 16

  class FileSystem {
    const size: nat         // blocks on the disk
    const dataStart: nat    // the blocks below hold the log, the inodes and the bitmap
    const bmapStart: nat
    const inodeStart: nat
    var bitmap: seq<Byte>
    var blocks: seq<Block>
    var ino: seq<Inode>     // in-memory inodes
    var disk: seq<Inode>    // the same inodes in the inode blocks
    ghost var bits: seq<bool>
    ghost var owner: map<nat, Slot>
    ghost var files: seq<seq<Byte>>  // the flat byte sequences
    ghost var logged: seq<nat>       // log header entries of this transaction

    // An object over a given disk.
    constructor (size: nat, dataStart: nat, bmapStart: nat, inodeStart: nat, bitmap: seq<Byte>, blocks: seq<Block>,
        inodes: seq<Inode>, ghost bits: seq<bool>, ghost owner: map<nat, Slot>, ghost files: seq<seq<Byte>>)
      ensures this.size == size && this.dataStart == dataStart && this.bmapStart == bmapStart
      ensures this.inodeStart == inodeStart
      ensures this.bitmap == bitmap && this.blocks == blocks && ino == disk == inodes
      ensures this.bits == bits && this.owner == owner && this.files == files && logged == []
    {
      this.size, this.dataStart, this.bmapStart, this.inodeStart := size, dataStart, bmapStart, inodeStart;
      this.bitmap, this.blocks, this.ino, this.disk := bitmap, blocks, inodes, inodes;
      this.bits, this.owner, this.files, this.logged := bits, owner, files, [];
    }

    ghost predicate Core()
      reads this
    {
      |blocks| == size && HoldsBits(bitmap, bits) && FsOk(bits, blocks, ino, owner, files, dataStart)
    }

    ghost predicate Valid()
      reads this
    {
      Core() && disk == ino && forall i :: 0 <= i < |ino| ==> ino[i].size == |files[i]|
    }

    // Valid(), or the same except that file i has the size it has, whatever its blocks
    // hold: it may have holes.
    ghost predicate Ready(i: nat, hole: bool)
      reads this
    {
      && Core() && i < |ino| && disk == ino && (forall j :: 0 <= j < |ino| && j != i ==> ino[j].size == |files[j]|)
      && if hole then files[i] == [] else ino[i].size == |files[i]|
    }

    function BitmapBlock(b: nat): nat {
      BitmapOf(b, bmapStart)
    }

    function InodeBlock(i: nat): nat {
      i / IPB + inodeStart
    }

    ghost function At(): Layout {
      Layout(bmapStart, dataStart)
    }

    ghost function Look(): View
      reads this
    {
      View(blocks, owner, bits, logged)
    }

    ghost function Count(i: nat): Tally
      requires i < |ino| && NDIRECT < |ino[i].addrs|
      reads this
    {
      Tally(bits, ino[i].addrs[NDIRECT], logged)
    }

    // The first free block, zeroed and marked; 0 when every block is in use.
    method Balloc() returns (r: nat)
      requires HoldsBits(bitmap, bits) && |bits| == |blocks| == size && (size > 0 ==> bits[0])
      modifies this`bitmap, this`blocks, this`bits, this`logged
      ensures HoldsBits(bitmap, bits)
      ensures r == 0 ==> bits == old(bits) && blocks == old(blocks) && bitmap == old(bitmap) && logged == old(logged)
      ensures r == 0 ==> forall b :: 0 <= b < size ==> bits[b]
      ensures r != 0 ==> r < size && !old(bits)[r] && forall b :: 0 <= b < r ==> old(bits)[b]
      ensures r != 0 ==> bits == old(bits)[r := true] && blocks == old(blocks)[r := Zeros(BSIZE)]
      ensures r != 0 ==> logged == LogAdd(LogAdd(old(logged), BitmapBlock(r)), r)
    {
      var b := 0;
      while b < size
        invariant bits == old(bits) && blocks == old(blocks) && bitmap == old(bitmap) && logged == old(logged)
        invariant b % BPB == 0 && forall c :: 0 <= c < b && c < size ==> bits[c]
      {
        var bi := FreeIn(b);
        if bi < BPB && b + bi < size {
          r := b + bi;
          assert BitmapBlock(b) == BitmapBlock(r);
          MarkUsed(b, bi);
          Bzero(r);
          return;
        }
        b := b + BPB;
      }
      return 0;
    }

    // The scan of the bitmap block for block b.
    method FreeIn(b: nat) returns (bi: nat)
      requires HoldsBits(bitmap, bits) && |bits| == size
      ensures bi <= BPB && (forall c :: b <= c < b + bi && c < size ==> bits[c])
      ensures bi == BPB || b + bi >= size || !bits[b + bi]
    {
      bi := 0;
      while bi < BPB && b + bi < size
        invariant bi <= BPB && forall c :: b <= c < b + bi && c < size ==> bits[c]
      {
        if !Bit(bitmap, b + bi) {
          return;
        }
        bi := bi + 1;
      }
    }

    // Bit bi of the bitmap block for block b.
    method MarkUsed(b: nat, bi: nat)
      requires HoldsBits(bitmap, bits) && b + bi < |bits|
      modifies this`bitmap, this`bits, this`logged
      ensures HoldsBits(bitmap, bits) && bits == old(bits)[b + bi := true]
      ensures logged == LogAdd(old(logged), BitmapBlock(b))
    {
      ChangeHolds(bitmap, bits, b + bi);
      bitmap := SetBit(bitmap, b + bi);
      bits := bits[b + bi := true];
      logged := LogAdd(logged, BitmapBlock(b));
    }

    method Bzero(b: nat)
      requires b < |blocks|
      modifies this`blocks, this`logged
      ensures blocks == old(blocks)[b := Zeros(BSIZE)] && logged == LogAdd(old(logged), b)
    {
      blocks := blocks[b := Zeros(BSIZE)];
      logged := LogAdd(logged, b);
    }

    // bfree(b); false is the panic, on a block that is free.
    method Bfree(b: nat) returns (ok: bool)
      requires HoldsBits(bitmap, bits) && b < |bits|
      modifies this`bitmap, this`bits, this`logged
      ensures HoldsBits(bitmap, bits) && (ok <==> old(bits)[b])
      ensures ok ==> bits == old(bits)[b := false] && logged == LogAdd(old(logged), BitmapBlock(b))
      ensures !ok ==> bitmap == old(bitmap) && bits == old(bits) && logged == old(logged)
    {
      if !Bit(bitmap, b) {
        return false;
      }
      ChangeHolds(bitmap, bits, b);
      bitmap := ClearBit(bitmap, b);
      bits := bits[b := false];
      logged := LogAdd(logged, BitmapBlock(b));
      return true;
    }

    // The block number in addrs[k], allocating a block when there is none.
    method MapDirect(i: nat, k: nat) returns (addr: nat)
      requires Core() && i < |ino| && k <= NDIRECT
      modifies this`bitmap, this`blocks, this`bits, this`logged, this`ino, this`owner
      ensures Core() && ino == old(ino)[i := old(ino)[i].(addrs := old(ino)[i].addrs[k := addr])]
      ensures addr == 0 || old(ino)[i].addrs[k] != 0 ==>
        bitmap == old(bitmap) && bits == old(bits) && blocks == old(blocks) && ino == old(ino) && owner == old(owner)
        && logged == old(logged)
      ensures old(ino)[i].addrs[k] != 0 ==> addr == old(ino)[i].addrs[k]
      ensures addr == 0 ==> forall b :: 0 <= b < size ==> bits[b]
      ensures old(ino)[i].addrs[k] == 0 && addr != 0 ==> addr < size && owner == old(owner)[addr := Direct(i, k)]
      ensures old(ino)[i].addrs[k] == 0 && addr != 0 ==> blocks == old(blocks)[addr := Zeros(BSIZE)]
      ensures old(ino)[i].addrs[k] == 0 && addr != 0 ==>
        Exact(old(Count(i)), Count(i), At(), if k < NDIRECT then 2 else 0)
      ensures NewLogged(old(Count(i)), Count(i)) && Logs(old(Look()), Look(), i, bmapStart)
      ensures old(ino)[i].addrs[k] == 0 && addr != 0 ==> logged == LogAdd(LogAdd(old(logged), BitmapBlock(addr)), addr)
    {
      addr := ino[i].addrs[k];
      SameAddrs(ino, i, k);
      LoggedSame(Count(i), Count(i));
      LogsNone(Look(), i, bmapStart);
      if addr == 0 {
        addr := Balloc();
        if addr == 0 {
          return;
        }
        AllocDirect(old(bits), old(blocks), ino, owner, files, dataStart, i, k, addr);
        IndirectUsed(old(bits), old(blocks), ino, owner, files, dataStart, i);
        LoggedAlloc(old(Count(i)), At(), addr, if k < NDIRECT then old(Count(i)).ind else addr);
        if k < NDIRECT {
          DirectExact(old(Count(i)), At(), addr);
        } else {
          IndirectExact(old(Count(i)), At(), addr);
        }
        ino := ino[i := ino[i].(addrs := ino[i].addrs[k := addr])];
        owner := owner[addr := Direct(i, k)];
        LogsAlloc(old(Look()), Look(), bmapStart, addr, Direct(i, k));
      }
    }

    // The j-th block number in the indirect block, allocating a block when there is none.
    method MapLeaf(i: nat, j: nat) returns (addr: nat)
      requires Core() && i < |ino| && j < NINDIRECT && ino[i].addrs[NDIRECT] != 0
      modifies this`bitmap, this`blocks, this`bits, this`logged, this`owner
      ensures Core() && addr == Val(ino, blocks, Leaf(i, j))
      ensures addr == 0 || old(Val(ino, blocks, Leaf(i, j))) != 0 ==>
        bitmap == old(bitmap) && bits == old(bits) && blocks == old(blocks) && owner == old(owner)
        && logged == old(logged)
      ensures old(Val(ino, blocks, Leaf(i, j))) != 0 ==> addr == old(Val(ino, blocks, Leaf(i, j)))
      ensures addr == 0 ==> forall b :: 0 <= b < size ==> bits[b]
      ensures addr != 0 && old(Val(ino, blocks, Leaf(i, j))) == 0 ==>
        NewLeaf(old(Count(i)), Count(i), old(owner), owner, i, j, addr, At())
      ensures Logs(old(Look()), Look(), i, bmapStart)
    {
      addr := Word(blocks[ino[i].addrs[NDIRECT]], j);
      LogsNone(Look(), i, bmapStart);
      if addr == 0 {
        ghost var t := Count(i);
        addr := GrowLeaf(i, j);
        if addr != 0 {
          NewLeafStep(t, old(owner), i, j, addr, At());
          assert Count(i)
              == Tally(t.bits[addr := true], t.ind, LogAdd(LogAdd(LogAdd(t.log, BitmapBlock(addr)), addr), t.ind));
        }
      }
    }

    // A new block behind an empty word of the indirect block.
    method GrowLeaf(i: nat, j: nat) returns (addr: nat)
      requires Core() && i < |ino| && j < NINDIRECT && ino[i].addrs[NDIRECT] != 0 && Val(ino, blocks, Leaf(i, j)) == 0
      modifies this`bitmap, this`blocks, this`bits, this`logged, this`owner
      ensures Core() && addr == Val(ino, blocks, Leaf(i, j))
      ensures addr == 0 ==>
        bitmap == old(bitmap) && bits == old(bits) && blocks == old(blocks) && owner == old(owner)
        && logged == old(logged)
      ensures addr == 0 ==> forall b :: 0 <= b < size ==> bits[b]
      ensures addr != 0 ==> addr < size && !old(bits)[addr] && bits == old(bits)[addr := true]
      ensures addr != 0 ==> owner == old(owner)[addr := Leaf(i, j)]
      ensures addr != 0 ==>
        logged == LogAdd(LogAdd(LogAdd(old(logged), BitmapBlock(addr)), addr), ino[i].addrs[NDIRECT])
      ensures dataStart <= ino[i].addrs[NDIRECT] < size && old(bits)[ino[i].addrs[NDIRECT]]
      ensures Logs(old(Look()), Look(), i, bmapStart)
    {
      var ind := ino[i].addrs[NDIRECT];
      IndirectUsed(bits, blocks, ino, owner, files, dataStart, i);
      LogsNone(Look(), i, bmapStart);
      addr := Balloc();
      if addr != 0 {
        AllocLeaf(old(bits), old(blocks), ino, owner, files, dataStart, i, j, addr);
        WordPut(blocks[ind], j, addr, j);
        owner := owner[addr := Leaf(i, j)];
        ghost var data := PutWord(blocks[ind], j, addr);
        blocks := blocks[ind := PutWord(blocks[ind], j, addr)];
        logged := LogAdd(logged, ind);
        LogsLeaf(old(Look()), Look(), bmapStart, addr, Leaf(i, j), ind, data);
      }
    }

    // bmap(ip, bn): the bn-th block of file i, allocated if there was none; 0 when the disk is full.
    method Bmap(i: nat, bn: nat) returns (addr: nat)
      requires Core() && i < |ino| && bn < MAXFILE
      modifies this`bitmap, this`blocks, this`bits, this`logged, this`ino, this`owner
      ensures Core() && addr == Val(ino, blocks, DataSlot(i, bn))
      ensures SameInodes(old(ino), ino, i)
      ensures old(Val(ino, blocks, DataSlot(i, bn))) != 0 ==>
        addr == old(Val(ino, blocks, DataSlot(i, bn))) && bitmap == old(bitmap) && bits == old(bits)
        && blocks == old(blocks)
        && ino == old(ino) && owner == old(owner) && logged == old(logged)
      ensures addr == 0 ==> forall b :: 0 <= b < size ==> bits[b]
      ensures Cost(ino[i].addrs[NDIRECT], logged) <= Cost(old(ino)[i].addrs[NDIRECT], old(logged)) + 2
      ensures old(Val(ino, blocks, DataSlot(i, bn))) == 0 && addr != 0 ==>
        addr in logged && Exact(old(Count(i)), Count(i), At(), 2) && (bn >= NDIRECT ==> IndLogged(Count(i)))
      ensures Grew(old(owner), owner, i, bn) && NewLogged(old(Count(i)), Count(i))
      ensures Logs(old(Look()), Look(), i, bmapStart)
    {
      if bn < NDIRECT {
        addr := MapDirect(i, bn);
        CostAlloc(ino[i].addrs[NDIRECT], old(logged), BitmapBlock(addr), addr);
      } else {
        addr := MapIndirect(i, bn - NDIRECT);
      }
    }

    method MapIndirect(i: nat, j: nat) returns (addr: nat)
      requires Core() && i < |ino| && j < NINDIRECT
      modifies this`bitmap, this`blocks, this`bits, this`logged, this`ino, this`owner
      ensures Core() && addr == Val(ino, blocks, Leaf(i, j))
      ensures SameInodes(old(ino), ino, i)
      ensures old(Val(ino, blocks, Leaf(i, j))) != 0 ==>
        addr == old(Val(ino, blocks, Leaf(i, j))) && bitmap == old(bitmap) && bits == old(bits) && blocks == old(blocks)
        && ino == old(ino) && owner == old(owner) && logged == old(logged)
      ensures addr == 0 ==> forall b :: 0 <= b < size ==> bits[b]
      ensures Cost(ino[i].addrs[NDIRECT], logged) <= Cost(old(ino)[i].addrs[NDIRECT], old(logged)) + 2
      ensures old(Val(ino, blocks, Leaf(i, j))) == 0 && addr != 0 ==>
        addr in logged && Exact(old(Count(i)), Count(i), At(), 2) && IndLogged(Count(i))
      ensures Grew(old(owner), owner, i, NDIRECT + j) && NewLogged(old(Count(i)), Count(i))
      ensures Logs(old(Look()), Look(), i, bmapStart)
    {
      var ind := MapDirect(i, NDIRECT);
      if ind == 0 {
        return 0;
      }
      CostIndirect(old(logged), BitmapBlock(ind), ind);
      ZeroWord(j);
      ghost var t, mid := Count(i), Look();
      addr := MapLeaf(i, j);
      LoggedSame(t, t);
      LoggedThen(old(Count(i)), t, Count(i));
      LogsThen(old(Look()), mid, Look(), i, bmapStart);
    }

    // readi(): a range of the flat bytes. limit is how much the destination can
    // take. No block is allocated and nothing is logged.
    method Readi(i: nat, off: nat, n: nat, limit: nat) returns (r: int, out: seq<Byte>)
      requires Valid() && i < |ino| && off < 0x1_0000_0000 && n < 0x1_0000_0000
      modifies this`bitmap, this`blocks, this`bits, this`logged, this`ino, this`owner
      ensures bitmap == old(bitmap) && bits == old(bits) && blocks == old(blocks) && ino == old(ino)
      ensures owner == old(owner) && logged == old(logged)
      ensures off > |files[i]| || off + n >= 0x1_0000_0000 ==> r == 0 && out == []
      ensures off <= |files[i]| && off + n < 0x1_0000_0000 ==>
        var m := Min(n, |files[i]| - off); if m <= limit then r == m && out == files[i][off..off + m] else r == -1
    {
      out := [];
      if off > ino[i].size || off + n >= 0x1_0000_0000 {
        return 0, out;
      }
      var want := if off + n > ino[i].size then ino[i].size - off else n;
      var tot := 0;
      while tot < want
        invariant 0 <= tot <= want && tot <= limit && out == files[i][off..off + tot]
        invariant bitmap == old(bitmap) && bits == old(bits) && blocks == old(blocks) && ino == old(ino)
        invariant owner == old(owner) && logged == old(logged)
      {
        var p := off + tot;
        var m := Min(want - tot, BSIZE - p % BSIZE);
        var chunk := ReadChunk(i, p, m);
        if tot + m > limit {
          return -1, out;
        }
        JoinRange(files[i], off, tot, m);
        out := out + chunk;
        tot := tot + m;
      }
      return tot, out;
    }

    // One round of readi()'s loop: the block is mapped, so bmap() changes nothing.
    method ReadChunk(i: nat, p: nat, m: nat) returns (chunk: seq<Byte>)
      requires Core() && i < |ino| && 1 <= m <= BSIZE - p % BSIZE && p + m <= |files[i]|
      modifies this`bitmap, this`blocks, this`bits, this`logged, this`ino, this`owner
      ensures chunk == files[i][p..p + m] && bitmap == old(bitmap) && bits == old(bits) && blocks == old(blocks)
      ensures ino == old(ino) && owner == old(owner) && logged == old(logged)
    {
      ChunkRead(ino, blocks, i, files[i], p, m);
      var addr := Bmap(i, p / BSIZE);
      chunk := blocks[addr][p % BSIZE..p % BSIZE + m];
    }

    // One round of writei()'s loop: the bytes more go to offset p of file i, after d.
    method WriteChunk(i: nat, p: nat, more: seq<Byte>, copied: bool, ghost c: seq<Byte>, ghost off: nat,
        ghost d: seq<Byte>,
        ghost hole: bool)
        returns (ok: bool, addr: nat)
      requires Core() && i < |ino| && |c| <= MAXFILE * BSIZE && (!hole ==> off <= |c|)
      requires files[i] == Known(c, off, d, hole)
      requires p == off + |d| && p + |more| <= MAXFILE * BSIZE && 1 <= |more| <= BSIZE - p % BSIZE
      modifies this`bitmap, this`blocks, this`bits, this`logged, this`ino, this`owner, this`files
      ensures Core() && SameInodes(old(ino), ino, i)
      ensures ok <==> copied && addr != 0
      ensures ok ==> files == old(files)[i := Known(c, off, d + more, hole)]
      ensures !ok ==> files == old(files) && addr == Val(ino, blocks, DataSlot(i, p / BSIZE))
      ensures addr == 0 ==> forall b :: 0 <= b < size ==> bits[b]
      ensures Logs(old(Look()), Look(), i, bmapStart)
      ensures RoundCost(old(Count(i)), Count(i), p, hole)
      ensures ok ==> ChunkExact(old(Count(i)), Count(i), At(), old(owner), owner, i, p, hole)
    {
      ghost var was;
      addr, was := MapBlock(i, p, hole);
      ok := addr != 0 && copied;
      if ok {
        ghost var t, mid := Count(i), Look();
        ChunkStep(old(Count(i)), t, At(), old(owner), owner, i, p, was, addr, hole);
        FillBlock(i, p, addr, more, c, off, d, hole);
        LoggedOne(t, addr);
        assert Count(i) == t.(log := LogAdd(t.log, addr));
        LogsThen(old(Look()), mid, Look(), i, bmapStart);
      }
    }

    // A copy that fails has put the bytes e, which it could read, into the block at offset p.
    // The block does not go into the log.
    method Tear(i: nat, p: nat, addr: nat, e: seq<Byte>, ghost hole: bool)
      requires Core() && i < |ino| && |files[i]| <= MAXFILE * BSIZE
      requires (if hole then files[i] == [] else p <= |files[i]|)
      requires p + |e| <= MAXFILE * BSIZE && |e| <= BSIZE - p % BSIZE && p < MAXFILE * BSIZE
      requires addr == Val(ino, blocks, DataSlot(i, p / BSIZE)) && addr != 0
      modifies this`blocks, this`files
      ensures Core() && files == old(files)[i := Cut(old(files)[i], p, e, hole)]
      ensures addr < |blocks| == |old(blocks)| && |old(blocks)[addr]| == BSIZE
      ensures blocks == old(blocks)[addr := Splice(old(blocks)[addr], p, e)]
    {
      TearStep(bits, blocks, ino, owner, files, dataStart, i, p, e, hole);
      blocks := blocks[addr := Splice(blocks[addr], p, e)];
      files := files[i := Cut(files[i], p, e, hole)];
    }

    // The bmap() of a write at offset p; was is the block that was there.
    method MapBlock(i: nat, p: nat, ghost hole: bool) returns (addr: nat, ghost was: nat)
      requires Core() && i < |ino| && p < MAXFILE * BSIZE && (!hole ==> p <= |files[i]|)
      modifies this`bitmap, this`blocks, this`bits, this`logged, this`ino, this`owner
      ensures Core() && SameInodes(old(ino), ino, i)
      ensures addr == Val(ino, blocks, DataSlot(i, p / BSIZE)) && RoundCost(old(Count(i)), Count(i), p, hole)
      ensures addr == 0 ==> forall b :: 0 <= b < size ==> bits[b]
      ensures addr != 0 ==> Mapped(old(Count(i)), Count(i), At(), old(owner), owner, i, p, was, addr, hole)
      ensures Logs(old(Look()), Look(), i, bmapStart)
    {
      if !hole {
        MappedBelow(ino, blocks, i, files[i], p);
      }
      NotMapped(bits, blocks, ino, owner, files, dataStart, i, p / BSIZE);
      was := Val(ino, blocks, DataSlot(i, p / BSIZE));
      addr := Bmap(i, p / BSIZE);
      MapCost(old(Count(i)), Count(i), p, was, hole);
      DataOwned(bits, blocks, ino, owner, files, dataStart, i, p / BSIZE);
    }

    method FillBlock(i: nat, p: nat, addr: nat, more: seq<Byte>, ghost c: seq<Byte>, ghost off: nat, ghost d: seq<Byte>,
        ghost hole: bool)
      requires Core() && i < |ino| && |c| <= MAXFILE * BSIZE && (!hole ==> off <= |c|)
      requires files[i] == Known(c, off, d, hole)
      requires p == off + |d| && p + |more| <= MAXFILE * BSIZE && 1 <= |more| <= BSIZE - p % BSIZE
      requires addr == Val(ino, blocks, DataSlot(i, p / BSIZE)) && addr != 0
      modifies this`blocks, this`logged, this`files
      ensures Core() && files == old(files)[i := Known(c, off, d + more, hole)] && logged == LogAdd(old(logged), addr)
      ensures Logs(old(Look()), Look(), i, bmapStart)
    {
      DataOwned(bits, blocks, ino, owner, files, dataStart, i, p / BSIZE);
      LogsFill(Look(), addr, Splice(blocks[addr], p, more), i, bmapStart);
      if hole {
        FillHole(bits, blocks, ino, owner, files, dataStart, i, p, more);
      } else {
        WriteStep(bits, blocks, ino, owner, files, dataStart, i, c, off, d, more);
      }
      blocks := blocks[addr := Splice(blocks[addr], p, more)];
      logged := LogAdd(logged, addr);
      files := files[i := Known(c, off, d + more, hole)];
    }

    method Iupdate(i: nat)
      requires i < |ino| == |disk|
      modifies this`disk, this`logged
      ensures disk == old(disk)[i := ino[i]] && logged == LogAdd(old(logged), InodeBlock(i))
    {
      disk := disk[i := ino[i]];
      logged := LogAdd(logged, InodeBlock(i));
    }

    // writei(): the source bytes overwrite the flat bytes from off on. limit is how much
    // of the source can be read; the count that is returned stops at a block boundary. Of
    // a block whose copy failed, torn bytes have changed all the same, without a log entry.
    method Writei(i: nat, src: seq<Byte>, off: nat, limit: nat, ghost hole: bool) returns (r: int,
        ghost before: seq<nat>, ghost torn: nat)
      requires Ready(i, hole) && off < 0x1_0000_0000 && |src| < 0x1_0000_0000
      modifies this`bitmap, this`blocks, this`bits, this`logged, this`ino, this`disk, this`owner, this`files
      ensures Ready(i, hole) && |ino| == |old(ino)|
      ensures r == -1 <==> off > old(ino)[i].size || off + |src| >= 0x1_0000_0000 || off + |src| > MAXFILE * BSIZE
      ensures r == -1 ==>
        bits == old(bits) && blocks == old(blocks) && ino == old(ino) && files == old(files)
        && before == logged == old(logged)
      ensures r != -1 ==> 0 <= r <= |src| && r + torn <= |src| && Sized(old(ino), ino, i, Grown(old(ino)[i].size, off + r))
      ensures r != -1 ==> files == old(files)[i := Left(old(files)[i], off, src, r, torn, hole)]
      ensures r <= limit && (r == -1 || r == |src| ==> torn == 0) && (0 < r < |src| ==> (off + r) % BSIZE == 0)
      ensures -1 < r < |src| ==>
        Failed(src, off, limit, r, torn) || (torn == 0 && forall b :: 0 <= b < size ==> bits[b])
      ensures r != -1 ==> |before| <= Cost(old(ino)[i].addrs[NDIRECT], old(logged)) + Bound(off, |src|, hole)
      ensures r != -1 ==> logged == LogAdd(before, InodeBlock(i)) && NewLogged(old(Count(i)), Tally(bits, 0, before))
      ensures r != -1 ==> LogsBut(old(Look()), Look().(log := before), i, bmapStart, off + r, torn)
      ensures var cost := Cost(old(ino)[i].addrs[NDIRECT], old(logged));
        r == |src| > 0 && off / BSIZE < NDIRECT <= (off + |src| - 1) / BSIZE
        && Met(old(Count(i)), At(), old(owner), i, off, 0, cost, hole) ==>
          |before| == cost + Bound(off, |src|, hole) && (InodeBlock(i) < bmapStart ==> InodeBlock(i) !in before)
    {
      var n := |src|;
      before, torn := logged, 0;
      if off > ino[i].size || off + n >= 0x1_0000_0000 || off + n > MAXFILE * BSIZE {
        return -1, before, torn;
      }
      var tot;
      tot, torn := WriteBytes(i, src, off, limit, hole);
      before := logged;
      Finish(i, off + tot, hole);
      return tot, before, torn;
    }

    // The loop of writei().
    method WriteBytes(i: nat, src: seq<Byte>, off: nat, limit: nat, ghost hole: bool) returns (tot: nat,
        ghost torn: nat)
      requires Core() && i < |ino| && off + |src| <= MAXFILE * BSIZE
      requires if hole then files[i] == [] else off <= ino[i].size == |files[i]|
      modifies this`bitmap, this`blocks, this`bits, this`logged, this`ino, this`owner, this`files
      ensures Core() && tot + torn <= |src| && files == old(files)[i := Left(old(files)[i], off, src, tot, torn, hole)]
      ensures SameInodes(old(ino), ino, i)
      ensures tot <= limit && (tot == |src| ==> torn == 0) && (0 < tot < |src| ==> (off + tot) % BSIZE == 0)
      ensures tot < |src| ==> Failed(src, off, limit, tot, torn) || (torn == 0 && forall b :: 0 <= b < size ==> bits[b])
      ensures |logged| <= Cost(old(ino)[i].addrs[NDIRECT], old(logged)) + Bound(off, |src|, hole)
      ensures NewLogged(old(Count(i)), Tally(bits, 0, logged))
      ensures LogsBut(old(Look()), Look(), i, bmapStart, off + tot, torn)
      ensures var cost := Cost(old(ino)[i].addrs[NDIRECT], old(logged));
        tot == |src| && Met(old(Count(i)), At(), old(owner), i, off, 0, cost, hole) ==>
          Met(Count(i), At(), owner, i, off, |src|, cost, hole)
    {
      var addr;
      tot, addr := WriteLoop(i, src, off, limit, hole);
      LoggedSame(Count(i), Tally(bits, 0, logged));
      LoggedThen(old(Count(i)), Count(i), Tally(bits, 0, logged));
      torn := TearLast(i, src, off, limit, tot, addr, old(files)[i], old(Look()), hole);
    }

    // What the failed copy of the bytes after the first tot has left behind.
    method TearLast(i: nat, src: seq<Byte>, off: nat, limit: nat, tot: nat, addr: nat, ghost c: seq<Byte>,
        ghost v0: View, ghost hole: bool) returns (ghost torn: nat)
      requires Core() && i < |ino| && off + |src| <= MAXFILE * BSIZE && tot <= |src| && Logs(v0, Look(), i, bmapStart)
      requires (if hole then true else off <= |c| <= MAXFILE * BSIZE) && files[i] == Known(c, off, src[..tot], hole)
      requires tot < |src| && addr != 0 ==>
        && tot + Min(|src| - tot, BSIZE - (off + tot) % BSIZE) > limit
        && addr == Val(ino, blocks, DataSlot(i, (off + tot) / BSIZE))
      modifies this`blocks, this`files
      ensures Core() && tot + torn <= |src| && files == old(files)[i := Left(c, off, src, tot, torn, hole)]
      ensures tot < |src| && addr != 0 ==> Failed(src, off, limit, tot, torn)
      ensures tot == |src| || addr == 0 ==> torn == 0
      ensures LogsBut(v0, Look(), i, bmapStart, off + tot, torn)
    {
      torn := 0;
      LeftIs(c, off, src, tot, 0, hole);
      if tot < |src| && addr != 0 {
        var p, q := off + tot, if limit > tot then limit - tot else 0;
        torn := q;
        ghost var was, e := Look(), src[tot..tot + q];
        DataOwned(bits, blocks, ino, owner, files, dataStart, i, p / BSIZE);
        LeftIs(c, off, src, tot, q, hole);
        Tear(i, p, addr, src[tot..tot + q], hole);
        TornLogs(v0, was, i, bmapStart, p, addr, e);
      }
    }

    // The end of writei(): the size and the copy of the inode on disk.
    method Finish(i: nat, end: nat, ghost hole: bool)
      requires Core() && i < |ino| == |disk| && ino == disk[i := ino[i]]
      requires forall j :: 0 <= j < |ino| && j != i ==> ino[j].size == |files[j]|
      requires if hole then files[i] == [] else |files[i]| == if end > ino[i].size then end else ino[i].size
      modifies this`ino, this`disk, this`logged
      ensures Ready(i, hole) && logged == LogAdd(old(logged), InodeBlock(i))
      ensures ino == old(ino)[i := old(ino)[i].(size := Grown(old(ino)[i].size, end))]
    {
      SizeStep(bits, blocks, ino, owner, files, dataStart, i, end);
      if end > ino[i].size {
        ino := ino[i := ino[i].(size := end)];
      }
      Iupdate(i);
    }

    // addr is 0 if a short write ended because the disk is full, and otherwise the block
    // whose copy failed.
    method WriteLoop(i: nat, src: seq<Byte>, off: nat, limit: nat, ghost hole: bool) returns (tot: nat, addr: nat)
      requires Core() && i < |ino| && off + |src| <= MAXFILE * BSIZE
      requires if hole then files[i] == [] else off <= ino[i].size == |files[i]|
      modifies this`bitmap, this`blocks, this`bits, this`logged, this`ino, this`owner, this`files
      ensures Core() && tot <= |src| && tot <= limit
      ensures files == old(files)[i := Known(old(files)[i], off, src[..tot], hole)]
      ensures SameInodes(old(ino), ino, i)
      ensures tot < |src| ==> Stopped(i, src, off, limit, tot, addr)
      ensures Logs(old(Look()), Look(), i, bmapStart)
      ensures Cost(ino[i].addrs[NDIRECT], logged) <= Cost(old(ino)[i].addrs[NDIRECT], old(logged)) + Bound(off, |src|, hole)
      ensures NewLogged(old(Count(i)), Count(i))
      ensures var cost := Cost(old(ino)[i].addrs[NDIRECT], old(logged));
        tot == |src| && Met(old(Count(i)), At(), old(owner), i, off, 0, cost, hole) ==>
          Met(Count(i), At(), owner, i, off, |src|, cost, hole)
    {
      assert !hole ==> Overwrite(files[i], off, src[..0]) == files[i];
      LoggedSame(Count(i), Count(i));
      ghost var cost := Cost(ino[i].addrs[NDIRECT], logged);
      ghost var w := Start(files, ino, Look(), Count(i), cost, Met(Count(i), At(), owner, i, off, 0, cost, hole), hole);
      tot, addr := Rounds(i, src, off, limit, w);
    }

    // A write ended after tot bytes: the disk is full, or the next bytes cannot all be read.
    ghost predicate Stopped(i: nat, src: seq<Byte>, off: nat, limit: nat, tot: nat, addr: nat)
      requires tot < |src|
      reads this
    {
      (tot > 0 ==> (off + tot) % BSIZE == 0) &&
      if addr == 0 then forall b :: 0 <= b < size && b < |bits| ==> bits[b]
      else
        && tot + Min(|src| - tot, BSIZE - (off + tot) % BSIZE) > limit
        && i < |ino| && FsSpec.Shape(ino, blocks) && (off + tot) / BSIZE < MAXFILE
        && addr == Val(ino, blocks, DataSlot(i, (off + tot) / BSIZE))
    }

    method Rounds(i: nat, src: seq<Byte>, off: nat, limit: nat, ghost w: Start) returns (tot: nat, addr: nat)
      requires Midway(i, src, off, 0, w) && off + |src| <= MAXFILE * BSIZE
      modifies this`bitmap, this`blocks, this`bits, this`logged, this`ino, this`owner, this`files
      ensures tot <= |src| && tot <= limit && (tot == |src| ==> Midway(i, src, off, tot, w))
      ensures tot < |src| ==> Partly(i, src, off, tot, w) && Stopped(i, src, off, limit, tot, addr)
      ensures tot < |src| ==> Cost(ino[i].addrs[NDIRECT], logged) <= w.cost + Bound(off, |src|, w.hole)
    {
      tot, addr := 0, 0;
      while tot < |src|
        invariant tot <= |src| && tot <= limit && Midway(i, src, off, tot, w)
      {
        var m, ok;
        m, ok, addr := WriteRound(i, src, off, limit, tot, w);
        if !ok {
          return;
        }
        tot := tot + m;
      }
    }

    // The first tot bytes of src are in file i, and nothing else changed in a file.
    ghost predicate Partly(i: nat, src: seq<Byte>, off: nat, tot: nat, w: Start)
      reads this
    {
      && Core() && SameInodes(w.ino, ino, i)
      && i < |w.files| && |w.files[i]| <= MAXFILE * BSIZE && (!w.hole ==> off <= |w.files[i]|) && tot <= |src|
      && files == w.files[i := Known(w.files[i], off, src[..tot], w.hole)] && NewLogged(w.count, Count(i))
      && Logs(w.look, Look(), i, bmapStart)
    }

    // Between two rounds of writei()'s loop.
    ghost predicate Midway(i: nat, src: seq<Byte>, off: nat, tot: nat, w: Start)
      reads this
    {
      && Partly(i, src, off, tot, w) && Spent(ino[i].addrs[NDIRECT], logged, off, tot, |src|, w.cost, w.hole)
      && (w.tight ==> Met(Count(i), At(), owner, i, off, tot, w.cost, w.hole))
    }

    method WriteRound(i: nat, src: seq<Byte>, off: nat, limit: nat, tot: nat, ghost w: Start)
        returns (m: nat, ok: bool, addr: nat)
      requires Midway(i, src, off, tot, w) && tot < |src| && off + |src| <= MAXFILE * BSIZE
      modifies this`bitmap, this`blocks, this`bits, this`logged, this`ino, this`owner, this`files
      ensures m == Min(|src| - tot, BSIZE - (off + tot) % BSIZE) && 1 <= m <= |src| - tot
      ensures ok ==> Midway(i, src, off, tot + m, w) && tot + m <= limit
      ensures !ok ==> Partly(i, src, off, tot, w) && Stopped(i, src, off, limit, tot, addr)
      ensures !ok ==> Cost(ino[i].addrs[NDIRECT], logged) <= w.cost + Bound(off, |src|, w.hole)
    {
      var p := off + tot;
      m := Min(|src| - tot, BSIZE - p % BSIZE);
      BoundStep(off, tot, m, |src|, w.hole);
      TakeMore(src, tot, m);
      ok, addr := WriteChunk(i, p, src[tot..tot + m], tot + m <= limit, w.files[i], off, src[..tot], w.hole);
      LoggedThen(w.count, old(Count(i)), Count(i));
      LogsThen(w.look, old(Look()), Look(), i, bmapStart);
      if ok {
        RoundMet(old(Count(i)), Count(i), At(), old(owner), owner, i, off, tot, m, |src|, w.cost, p, w.hole);
      }
    }

    // itrunc(): exactly the blocks of inode i become free.
    method Itrunc(i: nat)
      requires Valid() && i < |ino|
      modifies this`bitmap, this`bits, this`logged, this`ino, this`disk, this`owner, this`files
      ensures Valid() && files == old(files)[i := []] && Sized(old(ino), ino, i, 0)
      ensures BitsLogged(old(Look()), Look(), bmapStart) && InodeBlock(i) in logged
      ensures forall k :: 0 <= k <= NDIRECT ==> ino[i].addrs[k] == 0
      ensures forall b :: b in owner <==> b in old(owner) && old(owner)[b].i != i
      ensures forall b :: b in owner ==> owner[b] == old(owner)[b]
      ensures forall b :: 0 <= b < size ==> (bits[b] <==> old(bits)[b] && !(b in old(owner) && old(owner)[b].i == i))
    {
      TruncDirect(i);
      ghost var v1, own1 := Look(), owner;
      TruncIndirect(i);
      BitsThen(old(Look()), v1, Look(), bmapStart);
      NoneLeft(owner, ino, blocks, i);
      LostThen(old(owner), own1, owner, i);
      FreedBits(old(bits), bits, old(owner), owner, dataStart, i);
      v1 := Look();
      Reset(i);
      BitsSame(v1, Look(), bmapStart);
      BitsThen(old(Look()), v1, Look(), bmapStart);
    }

    // The end of itrunc().
    method Reset(i: nat)
      requires Core() && i < |ino| == |disk| && files[i] == []
      requires forall j :: 0 <= j < |ino| && j != i ==> ino[j] == disk[j] && ino[j].size == |files[j]|
      modifies this`ino, this`disk, this`logged
      ensures Valid() && ino == old(ino)[i := old(ino)[i].(size := 0)] && logged == LogAdd(old(logged), InodeBlock(i))
    {
      SizeStep(bits, blocks, ino, owner, files, dataStart, i, 0);
      ino := ino[i := ino[i].(size := 0)];
      Iupdate(i);
    }

    method TruncDirect(i: nat)
      requires Core() && i < |ino|
      modifies this`bitmap, this`bits, this`logged, this`ino, this`owner, this`files
      ensures Core() && files == old(files)[i := []] && Lost(owner, old(owner), i) && SameInodes(old(ino), ino, i)
      ensures (forall k :: 0 <= k < NDIRECT ==> ino[i].addrs[k] == 0) && BitsLogged(old(Look()), Look(), bmapStart)
    {
      Forget(bits, blocks, ino, owner, files, dataStart, i);
      files := files[i := []];
      BitsSame(Look(), Look(), bmapStart);
      for k := 0 to NDIRECT
        invariant Core() && files == old(files)[i := []] && Lost(owner, old(owner), i) && SameInodes(old(ino), ino, i)
        invariant (forall k' :: 0 <= k' < k ==> ino[i].addrs[k'] == 0) && BitsLogged(old(Look()), Look(), bmapStart)
      {
        if ino[i].addrs[k] != 0 {
          ghost var mid, was := Look(), ino;
          FreeSlot(i, k);
          BitsThen(old(Look()), mid, Look(), bmapStart);
          LostThen(old(owner), mid.owner, owner, i);
          ClearedEntry(old(ino), was, ino, i, k);
        }
      }
    }

    method TruncIndirect(i: nat)
      requires Core() && i < |ino| && files[i] == []
      modifies this`bitmap, this`bits, this`logged, this`ino, this`owner
      ensures Core() && Lost(owner, old(owner), i) && SameInodes(old(ino), ino, i)
      ensures ino[i].addrs == old(ino)[i].addrs[NDIRECT := 0] && BitsLogged(old(Look()), Look(), bmapStart)
    {
      BitsSame(Look(), Look(), bmapStart);
      if ino[i].addrs[NDIRECT] != 0 {
        ghost var g := FreeLeaves(i);
        ghost var mid := Look();
        FreeIndirect(i, g);
        BitsThen(old(Look()), mid, Look(), bmapStart);
      }
    }

    method FreeSlot(i: nat, k: nat)
      requires Core() && i < |ino| && k < NDIRECT && files[i] == [] && ino[i].addrs[k] != 0
      modifies this`bitmap, this`bits, this`logged, this`ino, this`owner
      ensures Core() && ino == old(ino)[i := old(ino)[i].(addrs := old(ino)[i].addrs[k := 0])]
      ensures BitsLogged(old(Look()), Look(), bmapStart) && Lost(owner, old(owner), i)
      ensures var b := old(ino)[i].addrs[k]; b in old(owner) && old(owner)[b] == Direct(i, k) && owner == old(owner) - {b}
    {
      FreeDirect(bits, blocks, ino, owner, files, dataStart, i, k);
      var b := ino[i].addrs[k];
      var ok := Bfree(b);
      assert ok;
      owner := owner - {b};
      ino := ino[i := ino[i].(addrs := ino[i].addrs[k := 0])];
      BitsFree(old(Look()), Look(), bmapStart, b);
    }

    // The blocks named in the indirect block become free. The words stay as they
    // are; g is the disk as it would be with those words cleared.
    method FreeLeaves(i: nat) returns (ghost g: seq<Block>)
      requires Core() && i < |ino| && files[i] == [] && ino[i].addrs[NDIRECT] != 0
      modifies this`bitmap, this`bits, this`logged, this`owner
      ensures HoldsBits(bitmap, bits) && FsOk(bits, g, ino, owner, files, dataStart) && |g| == size
      ensures g == blocks[ino[i].addrs[NDIRECT] := g[ino[i].addrs[NDIRECT]]]
      ensures Cleared(g[ino[i].addrs[NDIRECT]], blocks[ino[i].addrs[NDIRECT]], NINDIRECT)
      ensures Lost(owner, old(owner), i) && BitsLogged(old(Look()), Look(), bmapStart)
    {
      g := blocks;
      BitsSame(Look(), Look(), bmapStart);
      var ind := ino[i].addrs[NDIRECT];
      for j := 0 to NINDIRECT
        invariant HoldsBits(bitmap, bits) && FsOk(bits, g, ino, owner, files, dataStart) && |g| == size
        invariant g == blocks[ind := g[ind]] && Lost(owner, old(owner), i) && Cleared(g[ind], blocks[ind], j)
        invariant BitsLogged(old(Look()), Look(), bmapStart)
      {
        if Word(blocks[ind], j) != 0 {
          ghost var mid := Look();
          g := FreeOne(i, j, g, ind);
          BitsThen(old(Look()), mid, Look(), bmapStart);
        }
      }
    }

    method FreeOne(i: nat, j: nat, ghost g: seq<Block>, ind: nat) returns (ghost g': seq<Block>)
      requires HoldsBits(bitmap, bits) && FsOk(bits, g, ino, owner, files, dataStart) && |g| == |blocks| == size
      requires i < |ino| && j < NINDIRECT && files[i] == [] && ino[i].addrs[NDIRECT] == ind && 0 < ind < |g|
      requires Cleared(g[ind], blocks[ind], j) && Word(blocks[ind], j) != 0
      modifies this`bitmap, this`bits, this`logged, this`owner
      ensures HoldsBits(bitmap, bits) && FsOk(bits, g', ino, owner, files, dataStart) && |g'| == size
      ensures g' == g[ind := g'[ind]] && Lost(owner, old(owner), i)
      ensures Cleared(g'[ind], blocks[ind], j + 1) && BitsLogged(old(Look()), Look(), bmapStart)
    {
      var b := Word(blocks[ind], j);
      FreeOneStep(bits, g, ino, owner, files, dataStart, i, j, blocks[ind], ind);
      var ok := Bfree(b);
      assert ok;
      owner := owner - {b};
      BitsFree(old(Look()), Look(), bmapStart, b);
      g' := g[ind := PutWord(g[ind], j, 0)];
    }

    method FreeIndirect(i: nat, ghost g: seq<Block>)
      requires HoldsBits(bitmap, bits) && FsOk(bits, g, ino, owner, files, dataStart) && |g| == |blocks| == size
      requires i < |ino| && files[i] == [] && ino[i].addrs[NDIRECT] != 0 && Shape(ino, blocks)
      requires g == blocks[ino[i].addrs[NDIRECT] := g[ino[i].addrs[NDIRECT]]]
      requires Cleared(g[ino[i].addrs[NDIRECT]], blocks[ino[i].addrs[NDIRECT]], NINDIRECT)
      modifies this`bitmap, this`bits, this`logged, this`ino, this`owner
      ensures Core() && ino == old(ino)[i := old(ino)[i].(addrs := old(ino)[i].addrs[NDIRECT := 0])]
      ensures var b := old(ino)[i].addrs[NDIRECT];
              b in old(owner) && old(owner)[b] == Direct(i, NDIRECT) && owner == old(owner) - {b}
      ensures BitsLogged(old(Look()), Look(), bmapStart)
    {
      FreeDirect(bits, g, ino, owner, files, dataStart, i, NDIRECT);
      var b := ino[i].addrs[NDIRECT];
      var ok := Bfree(b);
      assert ok;
      owner := owner - {b};
      BitsFree(old(Look()), Look(), bmapStart, b);
      ino := ino[i := ino[i].(addrs := ino[i].addrs[NDIRECT := 0])];
      assert g[b := blocks[b]] == blocks;
      OverwriteFree(bits, g, ino, owner, files, dataStart, b, blocks[b]);
    }

    // filewrite(): the chunks write the source bytes one after the other, each in a
    // transaction of its own, and between them others may do what they like. trace tells
    // what each transaction did.
    method Filewrite(i: nat, src: seq<Byte>, start: nat, limit: nat) returns (ret: int, off: nat,
        ghost trace: seq<Chunk>)
      requires Valid() && i < |ino| && start < 0x1_0000_0000 && |src| < 0x8000_0000
      modifies this
      ensures Valid() && |ino| == |old(ino)| && Chunks(trace, i, src, start, limit) && off == start + Counted(trace)
      ensures ret == if AllWritten(trace, src) then |src| else -1
      ensures trace != [] ==> files == trace[|trace| - 1].now && ino == trace[|trace| - 1].after
      ensures trace == [] ==> src == [] && files == old(files) && ino == old(ino)
    {
      var n, max, done := |src|, (MAXOPBLOCKS - 1 - 1 - 2) / 2 * BSIZE, 0;
      off, trace := start, [];
      while done < n
        invariant Valid() && |ino| == |old(ino)| && done <= n && off == start + done && off < 0x1_0000_0000
        invariant FullChunks(trace, i, src, start, limit, done)
        invariant trace == [] ==> files == old(files) && ino == old(ino)
        invariant trace != [] ==> files == trace[|trace| - 1].now && ino == trace[|trace| - 1].after
      {
        Others();
        var n1 := Min(n - done, max);
        var r;
        ghost var k;
        r, k := NextChunk(i, src, off, done, n1, limit);
        AddChunk(trace, k, i, src, start, limit, done);
        trace := trace + [k];
        if r > 0 {
          off := off + r;
        }
        if r != n1 {
          break;
        }
        done := done + r;
      }
      ret := if done == n then n else -1;
    }

    // The chunk of n1 bytes after the first done ones.
    method NextChunk(i: nat, src: seq<Byte>, off: nat, done: nat, n1: nat, limit: nat) returns (r: int, ghost k: Chunk)
      requires Valid() && i < |ino| && n1 <= 3 * BSIZE && done + n1 <= |src| && off < 0x1_0000_0000
      modifies this
      ensures Valid() && |ino| == |old(ino)| && ChunkDone(k, i, src, done, limit) && k.off == off && k.n == n1
      ensures k.r == r
      ensures k.was == old(files) && k.now == files && k.inodes == old(ino) && k.after == ino && k.log == logged
      ensures r == n1 ==> off + n1 <= MAXFILE * BSIZE
    {
      ghost var before, torn;
      r, before, torn := WriteOp(i, src[done..done + n1], off, if limit > done then limit - done else 0, false);
      k := Chunk(off, n1, r, torn, old(files), files, old(ino), ino, logged, before);
    }

    // What others may do between two chunks: any transactions.
    method Others()
      requires Valid()
      modifies this
      ensures Valid() && |ino| == |old(ino)|
    {
      var j: int := *;
      var busy: bool := *;
      if busy && 0 <= j < |ino| {
        logged := [];
        Itrunc(j);
      }
    }

    // One transaction of filewrite().
    method WriteOp(i: nat, src: seq<Byte>, off: nat, limit: nat, ghost hole: bool) returns (r: int,
        ghost before: seq<nat>, ghost torn: nat)
      requires Ready(i, hole) && off < 0x1_0000_0000 && |src| <= 3 * BSIZE
      modifies this
      ensures Ready(i, hole) && |ino| == |old(ino)|
      ensures r == -1 || 0 <= r <= |src|
      ensures r == -1 <==> off > old(ino)[i].size || off + |src| > MAXFILE * BSIZE
      ensures r == -1 ==> files == old(files) && ino == old(ino)
      ensures r != -1 ==> Sized(old(ino), ino, i, Grown(old(ino)[i].size, off + r))
      ensures r != -1 ==> r + torn <= |src| && files == old(files)[i := Left(old(files)[i], off, src, r, torn, hole)]
      ensures r <= limit && (r == -1 || r == |src| ==> torn == 0) && (0 < r < |src| ==> (off + r) % BSIZE == 0)
      ensures r != -1 ==> LogsBut(old(Look()).(log := []), Look().(log := before), i, bmapStart, off + r, torn)
      ensures -1 < r < |src| ==>
        Failed(src, off, limit, r, torn) || (torn == 0 && forall b :: 0 <= b < size && !old(bits)[b] ==> b in before)
      ensures !hole ==> |before| <= MAXOPBLOCKS - 1 && |logged| <= MAXOPBLOCKS
      ensures |before| <= MAXOPBLOCKS
      ensures var t := Tally(old(bits), old(ino)[i].addrs[NDIRECT], []);
        InodeBlock(i) < bmapStart && UsesAll(t, At(), old(owner), i, off, hole) && r == |src| == 3 * BSIZE ==>
          |logged| == MAXOPBLOCKS + if hole then 1 else 0
    {
      logged := [];
      BoundChunk(off, |src|);
      if UsesAll(Count(i), At(), owner, i, off, hole) {
        FullChunk(Count(i), At(), owner, i, off, hole);
      }
      ghost var t := Count(i);
      r, before, torn := Writei(i, src, off, limit, hole);
      if -1 < r < |src| && !Failed(src, off, limit, r, torn) {
        forall b | 0 <= b < size && !t.bits[b] ensures b in before {
          assert AllocLogged(t, Tally(bits, 0, before), b);
        }
      }
    }
  }

  // The files and inodes when a write began, the log entries used or bespoken then,
  // whether the write will use all that its bound allows, and whether there may be holes.
  datatype Start = Start(files: seq<seq<Byte>>, ino: seq<Inode>, look: View, count: Tally, cost: nat,
    tight: bool, hole: bool)

  // What is known of the bytes c with d written over them at off.
  ghost function Known(c: seq<Byte>, off: nat, d: seq<Byte>, hole: bool): seq<Byte>
    requires !hole ==> off <= |c|
  {
    if hole then [] else Overwrite(c, off, d)
  }

  // What is left of c when the first n bytes of src have been written at off, and torn more
  // without counting: those that fall into the file have changed.
  ghost function Left(c: seq<Byte>, off: nat, src: seq<Byte>, n: nat, torn: nat, hole: bool): (r: seq<Byte>)
    requires n + torn <= |src| && (!hole ==> off <= |c|)
    ensures |r| == if hole then 0 else if off + n > |c| then off + n else |c|
  {
    if hole then [] else Overwrite(c, off, src[..n + torn])[..if off + n > |c| then off + n else |c|]
  }

  // c with the bytes e at p, no longer than it was.
  ghost function Cut(c: seq<Byte>, p: nat, e: seq<Byte>, hole: bool): seq<Byte>
    requires !hole ==> p <= |c|
  {
    if hole then [] else Overwrite(c, p, e)[..|c|]
  }

  lemma LeftIs(c: seq<Byte>, off: nat, src: seq<Byte>, n: nat, torn: nat, hole: bool)
    requires n + torn <= |src| && (!hole ==> off <= |c|)
    ensures !hole ==>
      Left(c, off, src, n, torn, hole) == Cut(Overwrite(c, off, src[..n]), off + n, src[n..n + torn], hole)
    ensures torn == 0 ==> Left(c, off, src, n, torn, hole) == Known(c, off, src[..n], hole)
  {
  }

  // The copy of the block after the first n bytes failed, with torn bytes of it readable.
  ghost predicate Failed(src: seq<Byte>, off: nat, limit: nat, n: nat, torn: nat) {
    && n < |src| && limit < n + Min(|src| - n, BSIZE - (off + n) % BSIZE)
    && torn == if limit > n then limit - n else 0
  }

  lemma TearStep(bits: seq<bool>, blocks: seq<Block>, ino: seq<Inode>, owner: map<nat, Slot>, files: seq<seq<Byte>>,
      dataStart: nat, i: nat, p: nat, e: seq<Byte>, hole: bool)
    requires FsOk(bits, blocks, ino, owner, files, dataStart) && i < |ino| && |files[i]| <= MAXFILE * BSIZE
    requires if hole then files[i] == [] else p <= |files[i]|
    requires p + |e| <= MAXFILE * BSIZE && |e| <= BSIZE - p % BSIZE && p < MAXFILE * BSIZE
    requires Val(ino, blocks, DataSlot(i, p / BSIZE)) != 0
    ensures var b := Val(ino, blocks, DataSlot(i, p / BSIZE));
            && b < |blocks| && |blocks[b]| == BSIZE
            && FsOk(bits, blocks[b := Splice(blocks[b], p, e)], ino, owner, files[i := Cut(files[i], p, e, hole)],
                    dataStart)
  {
    var b := Val(ino, blocks, DataSlot(i, p / BSIZE));
    DataOwned(bits, blocks, ino, owner, files, dataStart, i, p / BSIZE);
    if e == [] {
      assert Splice(blocks[b], p, e) == blocks[b] && Cut(files[i], p, e, hole) == files[i];
      assert blocks[b := blocks[b]] == blocks && files[i := files[i]] == files;
    } else if hole {
      FillHole(bits, blocks, ino, owner, files, dataStart, i, p, e);
    } else {
      var c := files[i];
      assert Overwrite(c, p, []) == c && [] + e == e;
      WriteStep(bits, blocks, ino, owner, files, dataStart, i, c, p, [], e);
      var next := files[i := Overwrite(c, p, e)];
      Shorten(bits, blocks[b := Splice(blocks[b], p, e)], ino, owner, next, dataStart, i, |c|);
      assert next[i := Cut(c, p, e, hole)] == files[i := Cut(c, p, e, hole)];
    }
  }

  // Less may be said of a file's bytes.
  lemma Shorten(bits: seq<bool>, blocks: seq<Block>, ino: seq<Inode>, owner: map<nat, Slot>, files: seq<seq<Byte>>,
      dataStart: nat, i: nat, n: nat)
    requires FsOk(bits, blocks, ino, owner, files, dataStart) && i < |ino| && n <= |files[i]|
    ensures FsOk(bits, blocks, ino, owner, files[i := files[i][..n]], dataStart)
  {
    assert Holds(ino, blocks, i, files[i][..n]);
  }

  // Filling a block of a file of which no byte is known.
  lemma FillHole(bits: seq<bool>, blocks: seq<Block>, ino: seq<Inode>, owner: map<nat, Slot>, files: seq<seq<Byte>>,
      dataStart: nat, i: nat, p: nat, more: seq<Byte>)
    requires FsOk(bits, blocks, ino, owner, files, dataStart) && i < |ino| && files[i] == [] && p < MAXFILE * BSIZE
    requires Val(ino, blocks, DataSlot(i, p / BSIZE)) != 0 && 1 <= |more| <= BSIZE - p % BSIZE
    ensures var b := Val(ino, blocks, DataSlot(i, p / BSIZE));
            && b < |blocks| && |blocks[b]| == BSIZE
            && FsOk(bits, blocks[b := Splice(blocks[b], p, more)], ino, owner, files[i := []], dataStart)
  {
    assert SlotOwned(owner, ino, blocks, DataSlot(i, p / BSIZE));
    var b := Val(ino, blocks, DataSlot(i, p / BSIZE));
    WriteData(bits, blocks, ino, owner, files, dataStart, i, p / BSIZE, Splice(blocks[b], p, more), []);
  }

  // owner is was without some of the blocks of inode i.
  ghost predicate Lost(owner: map<nat, Slot>, was: map<nat, Slot>, i: nat) {
    && (forall b :: b in owner ==> b in was && owner[b] == was[b])
    && (forall b :: b in was && was[b].i != i ==> b in owner)
  }

  lemma LostThen(o0: map<nat, Slot>, o1: map<nat, Slot>, o2: map<nat, Slot>, i: nat)
    requires Lost(o1, o0, i) && Lost(o2, o1, i)
    ensures Lost(o2, o0, i)
  {
  }

  // Inode i has other addresses, and nothing else is different.
  ghost predicate SameInodes(was: seq<Inode>, now: seq<Inode>, i: nat) {
    && |now| == |was| && i < |was| && now == was[i := now[i]] && now[i] == was[i].(addrs := now[i].addrs)
  }

  lemma ClearedEntry(was: seq<Inode>, mid: seq<Inode>, now: seq<Inode>, i: nat, k: nat)
    requires SameInodes(was, mid, i) && k < |mid[i].addrs| && now == mid[i := mid[i].(addrs := mid[i].addrs[k := 0])]
    ensures SameInodes(was, now, i) && |now[i].addrs| == |mid[i].addrs| && now[i].addrs[k] == 0
    ensures forall j :: 0 <= j < |now[i].addrs| && j != k ==> now[i].addrs[j] == mid[i].addrs[j]
  {
  }

  // Inode i has other addresses and that size; type, device numbers and links are as they were.
  ghost predicate Sized(was: seq<Inode>, now: seq<Inode>, i: nat, size: nat) {
    && |now| == |was| && i < |was| && now == was[i := now[i]] && now[i] == was[i].(addrs := now[i].addrs, size := size)
  }

  function Grown(size: nat, end: nat): nat {
    if end > size then end else size
  }

  // g is block with its first n words cleared.
  ghost predicate Cleared(g: Block, block: Block, n: nat) {
    |g| == |block| == BSIZE
    && forall j :: 0 <= j < NINDIRECT ==> Word(g, j) == if j < n then 0 else Word(block, j)
  }

  lemma ClearNext(g: Block, block: Block, n: nat)
    requires n < NINDIRECT && Cleared(g, block, n)
    ensures Cleared(PutWord(g, n, 0), block, n + 1)
  {
    forall j | 0 <= j < NINDIRECT ensures Word(PutWord(g, n, 0), j) == if j < n + 1 then 0 else Word(block, j) {
      WordPut(g, n, 0, j);
    }
  }

  lemma FreeOneStep(bits: seq<bool>, g: seq<Block>, ino: seq<Inode>, owner: map<nat, Slot>, files: seq<seq<Byte>>,
      dataStart: nat, i: nat, j: nat, block: Block, ind: nat)
    requires FsOk(bits, g, ino, owner, files, dataStart) && i < |ino| && j < NINDIRECT && files[i] == []
    requires ino[i].addrs[NDIRECT] == ind && 0 < ind < |g| && Cleared(g[ind], block, j) && Word(block, j) != 0
    ensures var b := Word(block, j);
            && b < |bits| && bits[b] && Lost(owner - {b}, owner, i)
            && FsOk(bits[b := false], g[ind := PutWord(g[ind], j, 0)], ino, owner - {b}, files, dataStart)
            && Cleared(PutWord(g[ind], j, 0), block, j + 1)
  {
    assert Val(ino, g, Leaf(i, j)) == Word(block, j);
    FreeLeaf(bits, g, ino, owner, files, dataStart, i, j);
    ClearNext(g[ind], block, j);
  }

  // The blocks that lost their owner are those of inode i.
  lemma FreedBits(bits: seq<bool>, bits': seq<bool>, owner: map<nat, Slot>, owner': map<nat, Slot>, dataStart: nat,
      i: nat)
    requires Marked(bits, owner, dataStart) && Marked(bits', owner', dataStart) && |bits| == |bits'|
    requires Lost(owner', owner, i) && forall b :: b in owner' ==> owner'[b].i != i
    ensures forall b :: b in owner' <==> b in owner && owner[b].i != i
    ensures forall b :: 0 <= b < |bits| ==> (bits'[b] <==> bits[b] && !(b in owner && owner[b].i == i))
  {
  }

  const CHUNK := 3 * BSIZE

  // One transaction of filewrite(): n bytes at offset off, what writei() returned, the
  // bytes that a failed copy changed, the files and the inodes before and after, and the log
  // entries, with and without the last one.
  datatype Chunk = Chunk(off: nat, n: nat, r: int, torn: nat, was: seq<seq<Byte>>, now: seq<seq<Byte>>,
    inodes: seq<Inode>, after: seq<Inode>, log: seq<nat>, before: seq<nat>)

  // It has written the bytes of src from at on to file i, with no more entries than there is room for.
  ghost predicate ChunkDone(k: Chunk, i: nat, src: seq<Byte>, at: nat, limit: nat) {
    && at + k.n <= |src| && |k.log| <= MAXOPBLOCKS && |k.before| <= MAXOPBLOCKS - 1 && i < |k.was|
    && (k.r == -1 <==> k.off > |k.was[i]| || k.off + k.n > MAXFILE * BSIZE)
    && (k.torn > 0 ==> 0 <= k.r && Failed(src[at..at + k.n], k.off, if limit > at then limit - at else 0, k.r, k.torn))
    && i < |k.inodes|
    && (if k.r == -1 then k.after == k.inodes
        else 0 <= k.r && Sized(k.inodes, k.after, i, Grown(k.inodes[i].size, k.off + k.r)))
    && (if k.r == -1 then k.now == k.was && k.torn == 0
        else 0 <= k.r <= k.n && k.r + k.torn <= k.n && (k.r == k.n ==> k.torn == 0)
             && k.now == k.was[i := Left(k.was[i], k.off, src[at..at + k.n], k.r, k.torn, false)])
  }

  // Chunk by chunk, up to the end or the first that is not written in full.
  ghost predicate Chunks(trace: seq<Chunk>, i: nat, src: seq<Byte>, start: nat, limit: nat) {
    forall k {:trigger ChunkAt(trace, k, i, src, start, limit)} ::
      0 <= k < |trace| ==> ChunkAt(trace, k, i, src, start, limit)
  }

  ghost predicate ChunkAt(trace: seq<Chunk>, k: nat, i: nat, src: seq<Byte>, start: nat, limit: nat)
    requires k < |trace|
  {
    var at := k * CHUNK;
    && at < |src| && trace[k].n == Min(|src| - at, CHUNK) && trace[k].off == start + at
    && ChunkDone(trace[k], i, src, at, limit)
    && (k < |trace| - 1 ==> trace[k].r == trace[k].n)
  }

  // The bytes that the return values add up to.
  ghost function Counted(trace: seq<Chunk>): int {
    if trace == [] then 0
    else (|trace| - 1) * CHUNK + if trace[|trace| - 1].r > 0 then trace[|trace| - 1].r else 0
  }

  ghost predicate AllWritten(trace: seq<Chunk>, src: seq<Byte>) {
    |trace| * CHUNK >= |src| && forall k :: 0 <= k < |trace| ==> trace[k].r == trace[k].n
  }

  // All of them in full, done bytes together.
  ghost predicate FullChunks(trace: seq<Chunk>, i: nat, src: seq<Byte>, start: nat, limit: nat, done: nat) {
    && Chunks(trace, i, src, start, limit) && (forall k :: 0 <= k < |trace| ==> trace[k].r == trace[k].n)
    && done == Min(|src|, |trace| * CHUNK) == Counted(trace)
  }

  lemma AddChunk(t: seq<Chunk>, k: Chunk, i: nat, src: seq<Byte>, start: nat, limit: nat, done: nat)
    requires FullChunks(t, i, src, start, limit, done) && done < |src| && ChunkDone(k, i, src, done, limit)
    requires k.off == start + done
    requires k.n == Min(|src| - done, CHUNK)
    ensures Chunks(t + [k], i, src, start, limit) && Counted(t + [k]) == done + if k.r > 0 then k.r else 0
    ensures k.r == k.n ==> FullChunks(t + [k], i, src, start, limit, done + k.n)
    ensures AllWritten(t + [k], src) <==> k.r == k.n && done + k.n == |src|
  {
    var t' := t + [k];
    assert done == |t| * CHUNK;
    forall j | 0 <= j < |t'| ensures ChunkAt(t', j, i, src, start, limit) {
      assert j < |t| ==> t'[j] == t[j] && ChunkAt(t, j, i, src, start, limit);
    }
    assert t'[|t|] == k;
  }

  // Nobody else has changed a file between the chunks.
  ghost predicate Undisturbed(trace: seq<Chunk>, files: seq<seq<Byte>>) {
    forall k {:trigger Joined(trace, files, k)} :: 0 <= k < |trace| ==> Joined(trace, files, k)
  }

  ghost predicate Joined(trace: seq<Chunk>, files: seq<seq<Byte>>, k: nat)
    requires k < |trace|
  {
    trace[k].was == if k == 0 then files else trace[k - 1].now
  }

  lemma {:induction false} ChunksBefore(trace: seq<Chunk>, i: nat, src: seq<Byte>, start: nat, limit: nat,
      files: seq<seq<Byte>>, k: nat)
    requires Chunks(trace, i, src, start, limit) && Undisturbed(trace, files) && k < |trace| && i < |files|
    requires start <= |files[i]| && k * CHUNK <= |src|
    ensures trace[k].was == files[i := Overwrite(files[i], start, src[..k * CHUNK])]
    decreases k
  {
    assert Joined(trace, files, k);
    if k == 0 {
      assert Overwrite(files[i], start, src[..0]) == files[i];
    } else {
      var j, at := k - 1, (k - 1) * CHUNK;
      ChunksBefore(trace, i, src, start, limit, files, j);
      assert ChunkAt(trace, j, i, src, start, limit);
      ChunkEffect(trace[j], i, src, start, limit, files, at);
    }
  }

  // A chunk after the first at bytes.
  lemma ChunkEffect(k: Chunk, i: nat, src: seq<Byte>, start: nat, limit: nat, files: seq<seq<Byte>>, at: nat)
    requires i < |files| && start <= |files[i]| && at <= |src| && ChunkDone(k, i, src, at, limit) && k.off == start + at
    requires k.was == files[i := Overwrite(files[i], start, src[..at])]
    ensures var r := if k.r > 0 then k.r else 0;
            && at + r + k.torn <= |src| && k.now == files[i := Left(files[i], start, src, at + r, k.torn, false)]
            && (k.torn == 0 ==> k.now == files[i := Overwrite(files[i], start, src[..at + r])])
  {
    LeftAfter(files[i], start, src, at, k.n, if k.r > 0 then k.r else 0, k.torn);
  }

  lemma LeftAfter(c: seq<Byte>, off: nat, src: seq<Byte>, at: nat, n: nat, r: nat, torn: nat)
    requires off <= |c| && at + n <= |src| && r + torn <= n
    ensures var d := Overwrite(c, off, src[..at]);
            Left(d, off + at, src[at..at + n], r, torn, false) == Left(c, off, src, at + r, torn, false)
    ensures torn == 0 ==> Left(c, off, src, at + r, torn, false) == Overwrite(c, off, src[..at + r])
  {
    var d, e := Overwrite(c, off, src[..at]), src[at..at + n][..r + torn];
    assert src[..at] + e == src[..at + r + torn];
    OverwriteTwice(c, off, src[..at], e);
  }

  // Then the file has the bytes that were counted, all other files are as they were, and of
  // the block whose copy failed some bytes may have changed that were not.
  lemma WholeWrite(trace: seq<Chunk>, i: nat, src: seq<Byte>, start: nat, limit: nat, files: seq<seq<Byte>>)
    requires Chunks(trace, i, src, start, limit) && Undisturbed(trace, files) && trace != [] && i < |files|
    ensures start > |files[i]| ==> trace[|trace| - 1].now == files && Counted(trace) == 0
    ensures start <= |files[i]| ==> 0 <= Counted(trace) && Counted(trace) + trace[|trace| - 1].torn <= |src|
    ensures start <= |files[i]| ==>
      trace[|trace| - 1].now == files[i := Left(files[i], start, src, Counted(trace), trace[|trace| - 1].torn, false)]
  {
    if start <= |files[i]| {
      LastChunk(trace, i, src, start, limit, files, (|trace| - 1) * CHUNK);
    } else {
      assert ChunkAt(trace, 0, i, src, start, limit) && Joined(trace, files, 0);
    }
  }

  lemma LastChunk(trace: seq<Chunk>, i: nat, src: seq<Byte>, start: nat, limit: nat, files: seq<seq<Byte>>, at: nat)
    requires Chunks(trace, i, src, start, limit) && Undisturbed(trace, files) && trace != [] && i < |files|
    requires start <= |files[i]| && at == (|trace| - 1) * CHUNK
    ensures var last := trace[|trace| - 1];
            var r := if last.r > 0 then last.r else 0;
            && at + r + last.torn <= |src| && last.now == files[i := Left(files[i], start, src, at + r, last.torn, false)]
  {
    var m := |trace| - 1;
    assert ChunkAt(trace, m, i, src, start, limit);
    ChunksBefore(trace, i, src, start, limit, files, m);
    ChunkEffect(trace[m], i, src, start, limit, files, at);
  }

  lemma OverwriteTwice(c: seq<Byte>, off: nat, d: seq<Byte>, e: seq<Byte>)
    requires off <= |c|
    ensures Overwrite(Overwrite(c, off, d), off + |d|, e) == Overwrite(c, off, d + e)
  {
  }

  lemma JoinRange(c: seq<Byte>, off: nat, tot: nat, m: nat)
    requires off + tot + m <= |c|
    ensures c[off..off + tot] + c[off + tot..off + tot + m] == c[off..off + (tot + m)]
  {
  }

  lemma TakeMore(src: seq<Byte>, tot: nat, m: nat)
    requires tot + m <= |src|
    ensures src[..tot] + src[tot..tot + m] == src[..tot + m]
  {
  }

  // The indirect block is a data block in use.
  lemma IndirectUsed(bits: seq<bool>, blocks: seq<Block>, ino: seq<Inode>, owner: map<nat, Slot>, files: seq<seq<Byte>>,
      dataStart: nat, i: nat)
    requires FsOk(bits, blocks, ino, owner, files, dataStart) && i < |ino|
    ensures var ind := ino[i].addrs[NDIRECT];
            ind != 0 ==> dataStart <= ind < |bits| && bits[ind] && ind in owner && owner[ind] == Direct(i, NDIRECT)
  {
    assert SlotOwned(owner, ino, blocks, Direct(i, NDIRECT));
  }

  // A mapped block is in use, owned by its own slot and not the indirect block.
  lemma DataOwned(bits: seq<bool>, blocks: seq<Block>, ino: seq<Inode>, owner: map<nat, Slot>, files: seq<seq<Byte>>,
      dataStart: nat, i: nat, bn: nat)
    requires FsOk(bits, blocks, ino, owner, files, dataStart) && i < |ino| && bn < MAXFILE
    ensures var b := Val(ino, blocks, DataSlot(i, bn));
            b != 0 ==>
              dataStart <= b < |bits| && bits[b] && b in owner && owner[b] == DataSlot(i, bn) && b != ino[i].addrs[NDIRECT]
  {
    assert SlotOwned(owner, ino, blocks, Direct(i, NDIRECT)) && SlotOwned(owner, ino, blocks, DataSlot(i, bn));
  }

  lemma NotMapped(bits: seq<bool>, blocks: seq<Block>, ino: seq<Inode>, owner: map<nat, Slot>, files: seq<seq<Byte>>,
      dataStart: nat, i: nat, bn: nat)
    requires FsOk(bits, blocks, ino, owner, files, dataStart) && i < |ino| && bn < MAXFILE
    ensures NoneFrom(owner, i, bn) ==> Val(ino, blocks, DataSlot(i, bn)) == 0
  {
    DataOwned(bits, blocks, ino, owner, files, dataStart, i, bn);
  }

  // A block that holds bytes below p is mapped.
  lemma MappedBelow(ino: seq<Inode>, blocks: seq<Block>, i: nat, c: seq<Byte>, p: nat)
    requires Shape(ino, blocks) && i < |ino| && Holds(ino, blocks, i, c) && p <= |c| && p < MAXFILE * BSIZE
    ensures p % BSIZE != 0 ==> Val(ino, blocks, DataSlot(i, p / BSIZE)) != 0
  {
    if p % BSIZE != 0 {
      assert ByteAt(ino, blocks, i, p - 1) == c[p - 1];
      assert (p - 1) / BSIZE == p / BSIZE;
    }
  }

  lemma SameAddrs(ino: seq<Inode>, i: nat, k: nat)
    requires i < |ino| && k < |ino[i].addrs|
    ensures ino == ino[i := ino[i].(addrs := ino[i].addrs[k := ino[i].addrs[k]])]
  {
    assert ino[i].addrs == ino[i].addrs[k := ino[i].addrs[k]];
  }

  // ----------------------------------------------------- counting the blocks

  function Below(n: nat): (r: set<nat>)
    ensures |r| == n && forall b: nat :: b in r <==> b < n
  {
    if n == 0 then {} else Below(n - 1) + {n - 1}
  }

  ghost function FreeBlocks(bits: seq<bool>): set<nat> {
    set b: nat | b < |bits| && !bits[b]
  }

  // Free, owned and metadata blocks make up the disk.
  lemma BlocksConserved(bits: seq<bool>, owner: map<nat, Slot>, dataStart: nat)
    requires Marked(bits, owner, dataStart) && dataStart <= |bits|
    ensures |FreeBlocks(bits)| + |owner.Keys| + dataStart == |bits|
  {
    var free, meta, all := FreeBlocks(bits), Below(dataStart), Below(|bits|);
    Parts(bits, owner, dataStart, meta, all);
    Sizes(free, owner.Keys, meta);
  }

  lemma Parts(bits: seq<bool>, owner: map<nat, Slot>, dataStart: nat, meta: set<nat>, all: set<nat>)
    requires Marked(bits, owner, dataStart) && dataStart <= |bits|
    requires (forall b: nat :: b in meta <==> b < dataStart) && (forall b: nat :: b in all <==> b < |bits|)
    ensures FreeBlocks(bits) !! owner.Keys !! meta && FreeBlocks(bits) + owner.Keys + meta == all
  {
  }

  lemma Sizes(a: set<nat>, b: set<nat>, c: set<nat>)
    requires a !! b !! c
    ensures |a + b + c| == |a| + |b| + |c|
  {
  }
}
