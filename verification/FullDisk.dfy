// A nearly full disk, on which a chunk of filewrite() needs all of its log entries: only
// the first block of each bitmap block's range is free, the others belong to full files.
// File 1 has its first m direct blocks; with m == NDIRECT - 1 the last one is a hole.
module FullDisk {
  import opened Common
  import opened Bitmap
  import opened FsSpec
  import opened FsLog
  import opened Fs

  const FREE := 11                      // free blocks, more than a chunk can log
  const SIZE: nat := BPB * FREE + 1
  const GROUP: nat := 256               // a full file has the blocks of one group
  const FILES: nat := BPB / GROUP * FREE
  const FIRST: nat := BPB / GROUP       // the first full file
  const T_FILE: nat := 2
  const FILE: nat := 1                  // the file that is written
  const BITMAP_START: nat := 60
  const INODE_START: nat := 32
  const OFFSET: nat := (NDIRECT - 1) * BSIZE + 1   // where the chunk starts, in the last direct block

  function DataStart(m: nat): int {
    BPB - m
  }

  predicate Free(b: nat) {
    b > 0 && b % BPB == 0
  }

  // Leaves of full file f: the last block of its group may be free.
  function Leaves(f: nat): nat {
    GROUP - NDIRECT - (if f % FIRST == FIRST - 1 then 2 else 1)
  }

  // Word j of the indirect block of full file f.
  function LeafBlock(f: nat, j: nat): nat {
    if j < Leaves(f) then GROUP * f + NDIRECT + 2 + j else 0
  }

  function Addr(m: nat, f: nat, k: nat): int {
    if f == FILE then (if k < m then DataStart(m) + k else 0) else if f < FIRST then 0 else GROUP * f + 1 + k
  }

  // The first n words of that indirect block.
  function Indirect(f: nat, n: nat): (b: Block)
    requires f < FILES && n <= NINDIRECT
    ensures |b| == BSIZE
  {
    if n == 0 then Zeros(BSIZE) else PutWord(Indirect(f, n - 1), n - 1, LeafBlock(f, n - 1))
  }

  lemma {:induction false} IndirectWord(f: nat, n: nat, j: nat)
    requires f < FILES && n <= NINDIRECT && j < NINDIRECT
    ensures Word(Indirect(f, n), j) == if j < n then LeafBlock(f, j) else 0
    decreases n
  {
    if n == 0 {
      ZeroWord(j);
    } else {
      IndirectWord(f, n - 1, j);
      WordPut(Indirect(f, n - 1), n - 1, LeafBlock(f, n - 1), j);
    }
  }

  function BlockAt(b: nat): (r: Block)
    requires b < SIZE
    ensures |r| == BSIZE
  {
    if b > BPB && (b - 1) % GROUP == NDIRECT then Indirect((b - 1) / GROUP, NINDIRECT) else Zeros(BSIZE)
  }

  function Blocks(): (r: seq<Block>)
    ensures |r| == SIZE && forall b :: 0 <= b < SIZE ==> r[b] == BlockAt(b)
  {
    seq(SIZE, b requires 0 <= b < SIZE => BlockAt(b))
  }

  function SizeOf(f: nat): nat {
    if f == FILE then NDIRECT * BSIZE else if f < FIRST then 0 else (NDIRECT + Leaves(f)) * BSIZE
  }

  function Inodes(m: nat): (r: seq<Inode>)
    requires m <= NDIRECT
    ensures |r| == FILES
    ensures forall f :: 0 <= f < FILES ==> |r[f].addrs| == NDIRECT + 1 && r[f].size == SizeOf(f)
    ensures forall f, k :: 0 <= f < FILES && 0 <= k <= NDIRECT ==> r[f].addrs[k] == Addr(m, f, k)
  {
    seq(FILES, f requires 0 <= f < FILES =>
      Inode(T_FILE, 0, 0, 1, SizeOf(f), seq(NDIRECT + 1, k requires 0 <= k <= NDIRECT => Addr(m, f, k) as nat)))
  }

  function Bits(): (r: seq<bool>)
    ensures |r| == SIZE && forall b :: 0 <= b < SIZE ==> r[b] == !Free(b)
  {
    seq(SIZE, b requires 0 <= b < SIZE => !Free(b))
  }

  function Bytes(): (r: seq<Byte>)
    ensures |r| == SIZE / 8 + 1 && forall j :: 0 <= j < |r| ==> r[j] == if j > 0 && j % BSIZE == 0 then 254 else 255
  {
    seq(SIZE / 8 + 1, j requires 0 <= j <= SIZE / 8 => if j > 0 && j % BSIZE == 0 then 254 else 255)
  }

  function SlotOf(m: nat, b: nat): Slot
    requires m <= NDIRECT && DataStart(m) <= b < SIZE
  {
    if b <= BPB then Direct(FILE, b - DataStart(m))
    else if (b - 1) % GROUP <= NDIRECT then Direct((b - 1) / GROUP, (b - 1) % GROUP)
    else Leaf((b - 1) / GROUP, (b - 1) % GROUP - NDIRECT - 1)
  }

  ghost function Owner(m: nat): map<nat, Slot>
    requires m <= NDIRECT
  {
    map b: nat | b < SIZE && DataStart(m) <= b && !Free(b) :: SlotOf(m, b)
  }

  // What the files hold; nothing is said of file 1 if it has a hole.
  ghost function Files(m: nat): (r: seq<seq<Byte>>)
    ensures |r| == FILES && forall f :: 0 <= f < FILES ==> r[f] == if f == FILE && m < NDIRECT then [] else Zeros(SizeOf(f))
  {
    seq(FILES, f requires 0 <= f < FILES => if f == FILE && m < NDIRECT then [] else Zeros(SizeOf(f)))
  }

  // ------------------------------------------------------ it is a file system

  lemma DiskShape(m: nat)
    requires m <= NDIRECT
    ensures Shape(Inodes(m), Blocks())
  {
    forall f | 0 <= f < FILES ensures AddrsOk(Inodes(m)[f].addrs, SIZE) {
    }
  }

  // What slot t holds.
  function SlotVal(m: nat, t: Slot): int
    requires m <= NDIRECT
  {
    match t
    case Direct(f, k) => Addr(m, f, k)
    case Leaf(f, j) => if f < FIRST then 0 else LeafBlock(f, j)
  }

  lemma ValIs(m: nat, t: Slot)
    requires m <= NDIRECT && InRange(t, FILES) && Shape(Inodes(m), Blocks())
    ensures Val(Inodes(m), Blocks(), t) == SlotVal(m, t)
  {
    if t.Leaf? && t.i >= FIRST {
      IndirectIs(t.i);
      IndirectWord(t.i, NINDIRECT, t.j);
    }
  }

  lemma IndirectIs(f: nat)
    requires FIRST <= f < FILES
    ensures GROUP * f + 1 + NDIRECT < SIZE && Blocks()[GROUP * f + 1 + NDIRECT] == Indirect(f, NINDIRECT)
  {
    var b := GROUP * f + 1 + NDIRECT;
    assert Blocks()[b] == BlockAt(b);
    assert (b - 1) / GROUP == f && (b - 1) % GROUP == NDIRECT;
  }

  lemma SlotOwns(m: nat, t: Slot)
    requires m <= NDIRECT && InRange(t, FILES) && SlotVal(m, t) != 0
    ensures var b := SlotVal(m, t); DataStart(m) <= b < SIZE && !Free(b) && SlotOf(m, b) == t
  {
    var b := SlotVal(m, t);
    if t.i >= FIRST {
      var pos := if t.Direct? then t.k else t.j + NDIRECT + 1;
      assert b == GROUP * t.i + 1 + pos && pos < GROUP;
      assert (b - 1) / GROUP == t.i && (b - 1) % GROUP == pos;
      NotFree(t.i, pos);
    }
  }

  // Only the last block of the last file of a bitmap block's range is free.
  lemma NotFree(f: nat, pos: nat)
    requires pos < GROUP && (f % FIRST != FIRST - 1 || pos < GROUP - 1)
    ensures !Free(GROUP * f + 1 + pos)
  {
    var q, r := f / FIRST, f % FIRST;
    assert f == FIRST * q + r;
    assert GROUP * f + 1 + pos == BPB * q + (GROUP * r + 1 + pos);
    Remainder(q, GROUP * r + 1 + pos);
  }

  lemma Remainder(q: nat, r: nat)
    requires r < BPB
    ensures (BPB * q + r) % BPB == r
  {
  }

  lemma LastIsFree(f: nat)
    requires f % FIRST == FIRST - 1
    ensures Free(GROUP * f + GROUP)
  {
    assert f == FIRST * (f / FIRST) + FIRST - 1;
    assert GROUP * f + GROUP == BPB * (f / FIRST + 1);
    Remainder(f / FIRST + 1, 0);
  }

  lemma BlockHasSlot(m: nat, b: nat)
    requires m <= NDIRECT && DataStart(m) <= b < SIZE && !Free(b)
    ensures InRange(SlotOf(m, b), FILES) && SlotVal(m, SlotOf(m, b)) == b
  {
    if b > BPB {
      var f, pos := (b - 1) / GROUP, (b - 1) % GROUP;
      assert b == GROUP * f + 1 + pos;
      if f % FIRST == FIRST - 1 {
        LastIsFree(f);
      }
    }
  }

  lemma DiskOwned(m: nat)
    requires m <= NDIRECT && Shape(Inodes(m), Blocks())
    ensures Owned(Owner(m), Inodes(m), Blocks())
  {
    forall t | InRange(t, FILES) ensures SlotOwned(Owner(m), Inodes(m), Blocks(), t) {
      ValIs(m, t);
      if SlotVal(m, t) != 0 {
        SlotOwns(m, t);
      }
    }
    forall b | b in Owner(m)
      ensures 0 < b < SIZE && InRange(Owner(m)[b], FILES) && Val(Inodes(m), Blocks(), Owner(m)[b]) == b
    {
      BlockHasSlot(m, b);
      ValIs(m, SlotOf(m, b));
    }
  }

  lemma DiskHolds(m: nat, f: nat)
    requires m <= NDIRECT && f < FILES && Shape(Inodes(m), Blocks())
    ensures Holds(Inodes(m), Blocks(), f, Files(m)[f])
  {
    forall o | 0 <= o < |Files(m)[f]| ensures ByteAt(Inodes(m), Blocks(), f, o) == Files(m)[f][o] {
      ByteIsZero(m, f, o);
    }
  }

  lemma ByteIsZero(m: nat, f: nat, o: nat)
    requires m <= NDIRECT && f < FILES && o < SizeOf(f) && (f == FILE ==> m == NDIRECT) && Shape(Inodes(m), Blocks())
    ensures ByteAt(Inodes(m), Blocks(), f, o) == 0
  {
    var t := DataSlot(f, o / BSIZE);
    ValIs(m, t);
    SlotOwns(m, t);
    DataIsZero(m, SlotVal(m, t), t);
  }

  lemma DataIsZero(m: nat, b: nat, t: Slot)
    requires m <= NDIRECT && DataStart(m) <= b < SIZE && SlotOf(m, b) == t && (t.Direct? ==> t.k < NDIRECT)
    ensures Blocks()[b] == Zeros(BSIZE)
  {
    assert Blocks()[b] == BlockAt(b);
  }

  lemma DiskOk(m: nat)
    requires m <= NDIRECT
    ensures FsOk(Bits(), Blocks(), Inodes(m), Owner(m), Files(m), DataStart(m))
  {
    DiskShape(m);
    DiskOwned(m);
    forall f | 0 <= f < FILES ensures Holds(Inodes(m), Blocks(), f, Files(m)[f]) {
      DiskHolds(m, f);
    }
  }

  lemma BytesHold()
    ensures HoldsBits(Bytes(), Bits())
  {
    forall b | 0 <= b < SIZE ensures Bit(Bytes(), b) == Bits()[b] {
      FullByte(b % 8);
      assert Free(b) <==> b / 8 > 0 && b / 8 % BSIZE == 0 && b % 8 == 0;
    }
  }

  lemma FullByte(k: nat)
    requires k < 8
    ensures HasBit(255, k) && (HasBit(254, k) <==> k != 0)
  {
    assert Full(2) == 3 && Full(4) == 15 && Full(6) == 63 && Full(7) == 127 && Full(8) == 255;
    Ones(8, k);
    if k > 0 {
      Ones(7, k - 1);
    }
  }

  // n ones in binary.
  function Full(n: nat): nat {
    if n == 0 then 0 else 2 * Full(n - 1) + 1
  }

  lemma {:induction false} Ones(n: nat, k: nat)
    requires k < n
    ensures HasBit(Full(n), k)
    decreases n
  {
    assert Full(n) % 2 == 1 && Full(n) / 2 == Full(n - 1);
    if k > 0 {
      Ones(n - 1, k - 1);
    }
  }

  // ------------------------------------------------- and a chunk uses it all

  lemma DiskTidy(m: nat)
    requires NDIRECT - 1 <= m <= NDIRECT
    ensures UsesAll(Tally(Bits(), 0, []), Layout(BITMAP_START, DataStart(m)), Owner(m), FILE, OFFSET, m < NDIRECT)
  {
    FreeLieApart(m);
    FileEnds(m);
  }

  lemma FreeLieApart(m: nat)
    requires m <= NDIRECT
    ensures Tidy(Tally(Bits(), 0, []), Layout(BITMAP_START, DataStart(m)))
  {
    var t, at := Tally(Bits(), 0, []), Layout(BITMAP_START, DataStart(m));
    forall b | 0 <= b < SIZE ensures BitmapOf(b, at.bitmap) < at.data {
      assert b / BPB <= FREE;
    }
    forall b, c | 0 <= b < c < SIZE ensures FreeApart(t, at, b, c) {
      if Free(b) && Free(c) {
        assert b == BPB * (b / BPB) && c == BPB * (c / BPB);
      }
    }
  }

  lemma FileEnds(m: nat)
    requires m <= NDIRECT
    ensures NoneFrom(Owner(m), FILE, m)
  {
    forall b | b in Owner(m) && Owner(m)[b].i == FILE ensures Index(Owner(m)[b]) < m {
      InFile(m, b);
    }
  }

  lemma InFile(m: nat, b: nat)
    requires m <= NDIRECT && DataStart(m) <= b < SIZE && !Free(b) && SlotOf(m, b).i == FILE
    ensures b < BPB
  {
  }

  // The n-th free block.
  function FreeBlock(n: nat): nat {
    BPB * n
  }

  // A log with all free blocks in it is longer than any chunk's.
  lemma {:induction false} AllInLog(log: seq<nat>, n: nat)
    requires forall x :: 1 <= x <= n ==> FreeBlock(x) in log
    ensures |log| >= n
    decreases n
  {
    if n > 0 {
      assert FreeBlock(n) in log;
      var p :| 0 <= p < |log| && log[p] == FreeBlock(n);
      var rest := log[..p] + log[p + 1..];
      forall x | 1 <= x <= n - 1 ensures FreeBlock(x) in rest {
        assert FreeBlock(x) in log;
        var q :| 0 <= q < |log| && log[q] == FreeBlock(x);
        assert rest[if q < p then q else q - 1] == FreeBlock(x);
      }
      AllInLog(rest, n - 1);
    }
  }

  method Mount(m: nat) returns (fs: FileSystem)
    requires NDIRECT - 1 <= m <= NDIRECT
    ensures fresh(fs) && fs.Ready(FILE, m < NDIRECT) && fs.size == SIZE && fs.bits == Bits()
    ensures fs.ino[FILE].size == NDIRECT * BSIZE && fs.files == Files(m)
    ensures UsesAll(Tally(fs.bits, fs.ino[FILE].addrs[NDIRECT], []), fs.At(), fs.owner, FILE, OFFSET, m < NDIRECT)
    ensures fs.InodeBlock(FILE) < fs.bmapStart
  {
    DiskOk(m);
    BytesHold();
    DiskTidy(m);
    fs := new FileSystem(SIZE, DataStart(m), BITMAP_START, INODE_START, Bytes(), Blocks(), Inodes(m),
                         Bits(), Owner(m), Files(m));
  }

  // filewrite() of one chunk on that disk: ten log entries, or eleven if the block that it
  // starts in is a hole.
  method Demand(m: nat) returns (fs: FileSystem, r: int, ghost before: seq<nat>)
    requires NDIRECT - 1 <= m <= NDIRECT
    ensures fresh(fs) && r == 3 * BSIZE
    ensures fs.Ready(FILE, m < NDIRECT) && |fs.logged| == if m == NDIRECT then MAXOPBLOCKS else MAXOPBLOCKS + 1
  {
    fs := Mount(m);
    ghost var torn;
    r, before, torn := fs.WriteOp(FILE, Zeros(3 * BSIZE), OFFSET, 3 * BSIZE, m < NDIRECT);
    if r < 3 * BSIZE {
      NeverFull(before);
    }
  }

  // No chunk fills that disk.
  lemma NeverFull(before: seq<nat>)
    requires forall b :: 0 <= b < SIZE && !Bits()[b] ==> b in before
    ensures |before| >= FREE
  {
    forall x | 1 <= x <= FREE ensures FreeBlock(x) in before {
      assert Free(FreeBlock(x));
    }
    AllInLog(before, FREE);
  }

  // Two bytes are to be written on that disk, and only the first can be read: nothing counts
  // as written, and that byte of the file has changed.
  method TornWrite() returns (fs: FileSystem, r: int)
    ensures fresh(fs) && r == 0 && fs.files == Files(NDIRECT)[FILE := Files(NDIRECT)[FILE][OFFSET := 1]]
    ensures fs.files != Files(NDIRECT)
  {
    fs := Mount(NDIRECT);
    ghost var before, torn;
    var src: seq<Byte> := [1, 1];
    r, before, torn := fs.WriteOp(FILE, src, OFFSET, 1, false);
    OneTorn(src, r, torn, before);
    OneByteTorn(Files(NDIRECT)[FILE]);
    Differ(Files(NDIRECT));
  }

  // It stops in the middle of the block, and not for want of free blocks.
  lemma OneTorn(src: seq<Byte>, r: int, torn: nat, before: seq<nat>)
    requires |src| == 2 && 0 <= r <= 1 && (0 < r ==> (OFFSET + r) % BSIZE == 0) && |before| < MAXOPBLOCKS
    requires Failed(src, OFFSET, 1, r, torn) || forall b :: 0 <= b < SIZE && !Bits()[b] ==> b in before
    ensures r == 0 && torn == 1
  {
    if !Failed(src, OFFSET, 1, r, torn) {
      NeverFull(before);
    }
  }

  lemma Differ(files: seq<seq<Byte>>)
    requires FILE < |files| && OFFSET < |files[FILE]| && files[FILE][OFFSET] != 1
    ensures files[FILE := files[FILE][OFFSET := 1]] != files
  {
    assert files[FILE := files[FILE][OFFSET := 1]][FILE][OFFSET] == 1;
  }

  lemma OneByteTorn(c: seq<Byte>)
    requires |c| == NDIRECT * BSIZE
    ensures Left(c, OFFSET, [1, 1], 0, 1, false) == c[OFFSET := 1]
  {
    var src: seq<Byte> := [1, 1];
    assert src[..1] == [1];
  }
}
