// The block map of the file system: inode slots that point at disk blocks,
// the bitmap that says which blocks are in use, and the file bytes that the
// mapped blocks hold.
module FsSpec {
  import opened Bitmap

  const BSIZE := 1024
  const NDIRECT := 12
  const NINDIRECT := 256
  const MAXFILE := NDIRECT + NINDIRECT

  type Block = seq<Byte>

  datatype Inode = Inode(kind: nat, major: nat, minor: nat, nlink: nat, size: nat, addrs: seq<nat>)

  // A place that can hold a block number: an entry of addrs, the last of
  // which names the indirect block, or a word of the indirect block.
  datatype Slot = Direct(i: nat, k: nat) | Leaf(i: nat, j: nat)

  predicate InRange(s: Slot, n: nat) {
    s.i < n && match s case Direct(_, k) => k <= NDIRECT case Leaf(_, j) => j < NINDIRECT
  }

  predicate Shape(ino: seq<Inode>, blocks: seq<Block>) {
    && |blocks| <= 0x1_0000_0000
    && (forall b :: 0 <= b < |blocks| ==> |blocks[b]| == BSIZE)
    && (forall i :: 0 <= i < |ino| ==> AddrsOk(ino[i].addrs, |blocks|))
  }

  predicate AddrsOk(addrs: seq<nat>, size: nat) {
    |addrs| == NDIRECT + 1 && forall k :: 0 <= k <= NDIRECT ==> addrs[k] < size
  }

  // The j-th little-endian 32-bit word of a block.
  function Word(b: Block, j: nat): nat
    requires |b| == BSIZE && j < NINDIRECT
  {
    var b0: int, b1: int, b2: int, b3: int := b[4 * j], b[4 * j + 1], b[4 * j + 2], b[4 * j + 3];
    b0 + 0x100 * b1 + 0x1_0000 * b2 + 0x100_0000 * b3
  }

  function PutWord(b: Block, j: nat, v: nat): (r: Block)
    requires |b| == BSIZE && j < NINDIRECT && v < 0x1_0000_0000
    ensures |r| == BSIZE
  {
    b[..4 * j] + [v % 0x100, v / 0x100 % 0x100, v / 0x1_0000 % 0x100, v / 0x100_0000] + b[4 * j + 4..]
  }

  lemma Digits(v: nat)
    ensures v == v % 0x100 + 0x100 * (v / 0x100 % 0x100) + 0x1_0000 * (v / 0x1_0000 % 0x100) + 0x100_0000 * (v / 0x100_0000)
  {
    assert v / 0x1_0000 == v / 0x100 / 0x100 && v / 0x100_0000 == v / 0x1_0000 / 0x100;
  }

  lemma WordPut(b: Block, j: nat, v: nat, j': nat)
    requires |b| == BSIZE && j < NINDIRECT && j' < NINDIRECT && v < 0x1_0000_0000
    ensures Word(PutWord(b, j, v), j') == if j == j' then v else Word(b, j')
  {
    Digits(v);
    PutAt(b, j, v, 4 * j');
    PutAt(b, j, v, 4 * j' + 1);
    PutAt(b, j, v, 4 * j' + 2);
    PutAt(b, j, v, 4 * j' + 3);
  }

  lemma PutAt(b: Block, j: nat, v: nat, k: nat)
    requires |b| == BSIZE && j < NINDIRECT && v < 0x1_0000_0000 && k < BSIZE
    ensures k < 4 * j || k >= 4 * j + 4 ==> PutWord(b, j, v)[k] == b[k]
    ensures k == 4 * j ==> PutWord(b, j, v)[k] == v % 0x100
    ensures k == 4 * j + 1 ==> PutWord(b, j, v)[k] == v / 0x100 % 0x100
    ensures k == 4 * j + 2 ==> PutWord(b, j, v)[k] == v / 0x1_0000 % 0x100
    ensures k == 4 * j + 3 ==> PutWord(b, j, v)[k] == v / 0x100_0000
  {
  }

  function Zeros(n: nat): (r: seq<Byte>)
    ensures |r| == n && forall i :: 0 <= i < n ==> r[i] == 0
  {
    if n == 0 then [] else Zeros(n - 1) + [0]
  }

  // The block number in slot s, 0 if there is none.
  function Val(ino: seq<Inode>, blocks: seq<Block>, s: Slot): nat
    requires Shape(ino, blocks) && InRange(s, |ino|)
  {
    match s
    case Direct(i, k) => ino[i].addrs[k]
    case Leaf(i, j) => var ind := ino[i].addrs[NDIRECT]; if ind == 0 then 0 else Word(blocks[ind], j)
  }

  // Each block number in a slot is owned by that slot and no other.
  ghost predicate Owned(owner: map<nat, Slot>, ino: seq<Inode>, blocks: seq<Block>)
    requires Shape(ino, blocks)
  {
    && (forall s :: InRange(s, |ino|) ==> SlotOwned(owner, ino, blocks, s))
    && (forall b :: b in owner ==> 0 < b < |blocks| && InRange(owner[b], |ino|) && Val(ino, blocks, owner[b]) == b)
  }

  ghost predicate SlotOwned(owner: map<nat, Slot>, ino: seq<Inode>, blocks: seq<Block>, s: Slot)
    requires Shape(ino, blocks) && InRange(s, |ino|)
  {
    var b := Val(ino, blocks, s);
    b != 0 ==> b in owner && owner[b] == s
  }

  // A block is in use when it is metadata or owned by a slot.
  ghost predicate Marked(bits: seq<bool>, owner: map<nat, Slot>, dataStart: nat) {
    && (forall b :: 0 <= b < |bits| ==> (bits[b] <==> b < dataStart || b in owner))
    && (forall b :: b in owner ==> dataStart <= b < |bits|)
  }

  // The slot of the bn-th block of a file.
  function DataSlot(i: nat, bn: nat): Slot {
    if bn < NDIRECT then Direct(i, bn) else Leaf(i, bn - NDIRECT)
  }

  // The byte at offset o of file i, -1 in a hole.
  function ByteAt(ino: seq<Inode>, blocks: seq<Block>, i: nat, o: nat): int
    requires Shape(ino, blocks) && i < |ino| && o < MAXFILE * BSIZE
  {
    var b := Val(ino, blocks, DataSlot(i, o / BSIZE));
    if 0 < b < |blocks| then blocks[b][o % BSIZE] else -1
  }

  // File i begins with the bytes c, with no holes.
  ghost predicate Holds(ino: seq<Inode>, blocks: seq<Block>, i: nat, c: seq<Byte>)
    requires Shape(ino, blocks) && i < |ino|
  {
    |c| <= MAXFILE * BSIZE && forall o :: 0 <= o < |c| ==> ByteAt(ino, blocks, i, o) == c[o]
  }

  ghost predicate AllHold(ino: seq<Inode>, blocks: seq<Block>, files: seq<seq<Byte>>)
    requires Shape(ino, blocks)
  {
    |files| == |ino| && forall i :: 0 <= i < |ino| ==> Holds(ino, blocks, i, files[i])
  }

  // --------------------------------------------------- giving out a block

  // Slot s, empty before, now holds b; no other slot changed.
  ghost predicate OnlySlot(ino: seq<Inode>, blocks: seq<Block>, ino': seq<Inode>, blocks': seq<Block>, s: Slot, b: nat)
    requires Shape(ino, blocks) && Shape(ino', blocks') && |ino| == |ino'|
  {
    && InRange(s, |ino|) && Val(ino', blocks', s) == b
    && forall t :: InRange(t, |ino|) && t != s ==> Val(ino', blocks', t) == Val(ino, blocks, t)
  }

  lemma AssignOwned(owner: map<nat, Slot>, ino: seq<Inode>, blocks: seq<Block>, ino': seq<Inode>, blocks': seq<Block>,
      s: Slot, b: nat)
    requires Shape(ino, blocks) && Shape(ino', blocks') && |ino| == |ino'| && |blocks| == |blocks'|
    requires Owned(owner, ino, blocks) && OnlySlot(ino, blocks, ino', blocks', s, b)
    requires Val(ino, blocks, s) == 0 && b !in owner && 0 < b < |blocks|
    ensures Owned(owner[b := s], ino', blocks')
  {
    var owner' := owner[b := s];
    forall t | InRange(t, |ino|) ensures SlotOwned(owner', ino', blocks', t) {
      if t != s {
        assert SlotOwned(owner, ino, blocks, t);
      }
    }
    forall c | c in owner'
      ensures 0 < c < |blocks'| && InRange(owner'[c], |ino'|) && Val(ino', blocks', owner'[c]) == c
    {
      if c != b {
        assert owner[c] != s;
      }
    }
  }

  // A block that no slot points at can be overwritten unseen.
  lemma UnownedVal(owner: map<nat, Slot>, ino: seq<Inode>, blocks: seq<Block>, b: nat, data: Block, t: Slot)
    requires Shape(ino, blocks) && Owned(owner, ino, blocks) && b !in owner && b < |blocks| && |data| == BSIZE
    requires InRange(t, |ino|)
    ensures Shape(ino, blocks[b := data]) && Val(ino, blocks[b := data], t) == Val(ino, blocks, t)
    ensures Val(ino, blocks, t) != 0 ==> Val(ino, blocks, t) != b
  {
    assert SlotOwned(owner, ino, blocks, t);
    assert SlotOwned(owner, ino, blocks, Direct(t.i, NDIRECT));
  }

  // ------------------------------------------------------- the invariant

  ghost predicate FsOk(bits: seq<bool>, blocks: seq<Block>, ino: seq<Inode>, owner: map<nat, Slot>,
      files: seq<seq<Byte>>,
      dataStart: nat)
  {
    && Shape(ino, blocks) && |bits| == |blocks| && dataStart >= 1
    && Owned(owner, ino, blocks) && Marked(bits, owner, dataStart) && AllHold(ino, blocks, files)
  }

  // Data slot t keeps its block and the block keeps its bytes.
  ghost predicate SameData(ino: seq<Inode>, blocks: seq<Block>, ino': seq<Inode>, blocks': seq<Block>, t: Slot)
    requires Shape(ino, blocks) && Shape(ino', blocks') && InRange(t, |ino|) && |ino| == |ino'| && |blocks| == |blocks'|
  {
    var b := Val(ino, blocks, t);
    0 < b < |blocks| ==> Val(ino', blocks', t) == b && blocks'[b] == blocks[b]
  }

  ghost predicate AllSame(ino: seq<Inode>, blocks: seq<Block>, ino': seq<Inode>, blocks': seq<Block>, i: nat)
    requires Shape(ino, blocks) && Shape(ino', blocks') && |ino| == |ino'| && |blocks| == |blocks'| && i < |ino|
  {
    forall bn :: 0 <= bn < MAXFILE ==> SameData(ino, blocks, ino', blocks', DataSlot(i, bn))
  }

  lemma KeepHolds(ino: seq<Inode>, blocks: seq<Block>, ino': seq<Inode>, blocks': seq<Block>, i: nat, c: seq<Byte>)
    requires Shape(ino, blocks) && Shape(ino', blocks') && |ino| == |ino'| && |blocks| == |blocks'| && i < |ino|
    requires AllSame(ino, blocks, ino', blocks', i) && Holds(ino, blocks, i, c)
    ensures Holds(ino', blocks', i, c)
  {
    forall o | 0 <= o < |c| ensures ByteAt(ino', blocks', i, o) == c[o] {
      assert ByteAt(ino, blocks, i, o) == c[o];
      assert SameData(ino, blocks, ino', blocks', DataSlot(i, o / BSIZE));
    }
  }

  // ------------------------------------------------ the slots one by one

  lemma SetDirect(ino: seq<Inode>, blocks: seq<Block>, i: nat, k: nat, b: nat, t: Slot)
    requires Shape(ino, blocks) && i < |ino| && k <= NDIRECT && b < |blocks| && InRange(t, |ino|)
    requires k == NDIRECT ==> forall j :: 0 <= j < NINDIRECT ==> Val(ino, blocks, Leaf(i, j)) == 0
    requires k == NDIRECT && b != 0 ==> blocks[b] == Zeros(BSIZE)
    ensures var ino' := ino[i := ino[i].(addrs := ino[i].addrs[k := b])];
            && Shape(ino', blocks)
            && Val(ino', blocks, t) == if t == Direct(i, k) then b else Val(ino, blocks, t)
  {
    var ino' := ino[i := ino[i].(addrs := ino[i].addrs[k := b])];
    SetDirectShape(ino, blocks, i, k, b);
    if t.Leaf? && t.i == i && k == NDIRECT {
      assert Val(ino, blocks, Leaf(i, t.j)) == 0;
      ZeroWord(t.j);
    }
  }

  lemma SetDirectShape(ino: seq<Inode>, blocks: seq<Block>, i: nat, k: nat, b: nat)
    requires Shape(ino, blocks) && i < |ino| && k <= NDIRECT && b < |blocks|
    ensures Shape(ino[i := ino[i].(addrs := ino[i].addrs[k := b])], blocks)
  {
    assert AddrsOk(ino[i].addrs[k := b], |blocks|);
  }

  lemma ZeroWord(j: nat)
    requires j < NINDIRECT
    ensures Word(Zeros(BSIZE), j) == 0
  {
  }

  lemma SetLeaf(owner: map<nat, Slot>, ino: seq<Inode>, blocks: seq<Block>, i: nat, j: nat, b: nat, t: Slot)
    requires Shape(ino, blocks) && Owned(owner, ino, blocks) && i < |ino| && j < NINDIRECT && b < |blocks|
    requires InRange(t, |ino|)
    requires ino[i].addrs[NDIRECT] != 0
    ensures var ind := ino[i].addrs[NDIRECT];
            var blocks' := blocks[ind := PutWord(blocks[ind], j, b)];
            && Shape(ino, blocks')
            && Val(ino, blocks', t) == if t == Leaf(i, j) then b else Val(ino, blocks, t)
  {
    var ind := ino[i].addrs[NDIRECT];
    assert SlotOwned(owner, ino, blocks, Direct(i, NDIRECT));
    assert SlotOwned(owner, ino, blocks, Direct(t.i, NDIRECT));
    if t.Leaf? && t.i == i {
      WordPut(blocks[ind], j, b, t.j);
    }
  }

  // The indirect block is not a data block.
  lemma IndirectNotData(owner: map<nat, Slot>, ino: seq<Inode>, blocks: seq<Block>, i: nat, i': nat, bn: nat)
    requires Shape(ino, blocks) && Owned(owner, ino, blocks) && i < |ino| && i' < |ino| && bn < MAXFILE
    requires ino[i].addrs[NDIRECT] != 0
    ensures Val(ino, blocks, DataSlot(i', bn)) != ino[i].addrs[NDIRECT]
  {
    assert SlotOwned(owner, ino, blocks, Direct(i, NDIRECT));
    assert SlotOwned(owner, ino, blocks, DataSlot(i', bn));
  }

  // ---------------------------------------- balloc() and the store in bmap()

  lemma MarkMore(bits: seq<bool>, owner: map<nat, Slot>, dataStart: nat, b: nat, s: Slot)
    requires Marked(bits, owner, dataStart) && b < |bits| && !bits[b]
    ensures b !in owner && Marked(bits[b := true], owner[b := s], dataStart)
  {
  }

  lemma AllocDirect(bits: seq<bool>, blocks: seq<Block>, ino: seq<Inode>, owner: map<nat, Slot>, files: seq<seq<Byte>>,
      dataStart: nat, i: nat, k: nat, b: nat)
    requires FsOk(bits, blocks, ino, owner, files, dataStart) && i < |ino| && k <= NDIRECT && b < |bits| && !bits[b]
    requires ino[i].addrs[k] == 0
    ensures var ino' := ino[i := ino[i].(addrs := ino[i].addrs[k := b])];
            FsOk(bits[b := true], blocks[b := Zeros(BSIZE)], ino', owner[b := Direct(i, k)], files, dataStart)
  {
    var s := Direct(i, k);
    var zeroed, ino' := blocks[b := Zeros(BSIZE)], ino[i := ino[i].(addrs := ino[i].addrs[k := b])];
    MarkMore(bits, owner, dataStart, b, s);
    UnownedVal(owner, ino, blocks, b, Zeros(BSIZE), s);
    forall t | InRange(t, |ino|)
      ensures Val(ino, zeroed, t) == Val(ino, blocks, t) && (Val(ino, blocks, t) != 0 ==> Val(ino, blocks, t) != b)
    {
      UnownedVal(owner, ino, blocks, b, Zeros(BSIZE), t);
    }
    SetDirect(ino, zeroed, i, k, b, s);
    forall t | InRange(t, |ino|) ensures Val(ino', zeroed, t) == if t == s then b else Val(ino, zeroed, t) {
      SetDirect(ino, zeroed, i, k, b, t);
    }
    AssignOwned(owner, ino, blocks, ino', zeroed, s, b);
    forall i' | 0 <= i' < |ino| ensures Holds(ino', zeroed, i', files[i']) {
      KeepHolds(ino, blocks, ino', zeroed, i', files[i']);
    }
  }

  lemma AllocLeaf(bits: seq<bool>, blocks: seq<Block>, ino: seq<Inode>, owner: map<nat, Slot>, files: seq<seq<Byte>>,
      dataStart: nat, i: nat, j: nat, b: nat)
    requires FsOk(bits, blocks, ino, owner, files, dataStart) && i < |ino| && j < NINDIRECT && b < |bits| && !bits[b]
    requires ino[i].addrs[NDIRECT] != 0 && Val(ino, blocks, Leaf(i, j)) == 0
    ensures var ind := ino[i].addrs[NDIRECT];
            && ind != b
            && FsOk(bits[b := true], blocks[b := Zeros(BSIZE)][ind := PutWord(blocks[ind], j, b)], ino,
                    owner[b := Leaf(i, j)], files, dataStart)
  {
    var s, ind := Leaf(i, j), ino[i].addrs[NDIRECT];
    MarkMore(bits, owner, dataStart, b, s);
    UnownedVal(owner, ino, blocks, b, Zeros(BSIZE), Direct(i, NDIRECT));
    var zeroed := blocks[b := Zeros(BSIZE)];
    var after := zeroed[ind := PutWord(zeroed[ind], j, b)];
    forall t | InRange(t, |ino|)
      ensures Val(ino, zeroed, t) == Val(ino, blocks, t) && (Val(ino, blocks, t) != 0 ==> Val(ino, blocks, t) != b)
    {
      UnownedVal(owner, ino, blocks, b, Zeros(BSIZE), t);
    }
    OwnedSame(owner, ino, blocks, zeroed);
    SetLeaf(owner, ino, zeroed, i, j, b, s);
    forall t | InRange(t, |ino|) ensures Val(ino, after, t) == if t == s then b else Val(ino, zeroed, t) {
      SetLeaf(owner, ino, zeroed, i, j, b, t);
    }
    AssignOwned(owner, ino, zeroed, ino, after, s, b);
    forall i' | 0 <= i' < |ino| ensures Holds(ino, after, i', files[i']) {
      forall bn | 0 <= bn < MAXFILE ensures SameData(ino, blocks, ino, after, DataSlot(i', bn)) {
        IndirectNotData(owner, ino, blocks, i, i', bn);
      }
      KeepHolds(ino, blocks, ino, after, i', files[i']);
    }
  }

  lemma OwnedSame(owner: map<nat, Slot>, ino: seq<Inode>, blocks: seq<Block>, blocks': seq<Block>)
    requires Shape(ino, blocks) && Shape(ino, blocks') && |blocks| == |blocks'| && Owned(owner, ino, blocks)
    requires forall t :: InRange(t, |ino|) ==> Val(ino, blocks', t) == Val(ino, blocks, t)
    ensures Owned(owner, ino, blocks')
  {
    forall t | InRange(t, |ino|) ensures SlotOwned(owner, ino, blocks', t) {
      assert SlotOwned(owner, ino, blocks, t);
    }
  }

  // ------------------------------------------------------------ writing data

  // Overwriting a data block changes no slot.
  lemma DataVal(owner: map<nat, Slot>, ino: seq<Inode>, blocks: seq<Block>, i: nat, bn: nat, data: Block, t: Slot)
    requires Shape(ino, blocks) && Owned(owner, ino, blocks) && i < |ino| && bn < MAXFILE && InRange(t, |ino|)
    requires |data| == BSIZE && Val(ino, blocks, DataSlot(i, bn)) != 0
    ensures var b := Val(ino, blocks, DataSlot(i, bn));
            && b < |blocks| && Shape(ino, blocks[b := data]) && Val(ino, blocks[b := data], t) == Val(ino, blocks, t)
            && (Val(ino, blocks, t) == b ==> t == DataSlot(i, bn))
  {
    assert SlotOwned(owner, ino, blocks, DataSlot(i, bn));
    assert SlotOwned(owner, ino, blocks, t);
    assert SlotOwned(owner, ino, blocks, Direct(t.i, NDIRECT));
  }

  // c' is c with the bytes of block bn taken from data.
  ghost predicate Patched(c: seq<Byte>, bn: nat, data: Block, c': seq<Byte>)
    requires |data| == BSIZE
  {
    |c'| <= MAXFILE * BSIZE
    && forall o :: 0 <= o < |c'| ==> if o / BSIZE == bn then c'[o] == data[o % BSIZE] else o < |c| && c'[o] == c[o]
  }

  lemma WriteData(bits: seq<bool>, blocks: seq<Block>, ino: seq<Inode>, owner: map<nat, Slot>, files: seq<seq<Byte>>,
      dataStart: nat, i: nat, bn: nat, data: Block, c: seq<Byte>)
    requires FsOk(bits, blocks, ino, owner, files, dataStart) && i < |ino| && bn < MAXFILE && |data| == BSIZE
    requires Val(ino, blocks, DataSlot(i, bn)) != 0 && Patched(files[i], bn, data, c)
    ensures var b := Val(ino, blocks, DataSlot(i, bn));
            b < |blocks| && FsOk(bits, blocks[b := data], ino, owner, files[i := c], dataStart)
  {
    var s, b := DataSlot(i, bn), Val(ino, blocks, DataSlot(i, bn));
    DataVal(owner, ino, blocks, i, bn, data, s);
    var after := blocks[b := data];
    forall t | InRange(t, |ino|)
      ensures Val(ino, after, t) == Val(ino, blocks, t) && (Val(ino, blocks, t) == b ==> t == s)
    {
      DataVal(owner, ino, blocks, i, bn, data, t);
    }
    OwnedSame(owner, ino, blocks, after);
    forall i' | 0 <= i' < |ino| && i' != i ensures Holds(ino, after, i', files[i']) {
      KeepHolds(ino, blocks, ino, after, i', files[i']);
    }
    forall o | 0 <= o < |c| ensures ByteAt(ino, after, i, o) == c[o] {
      var x := c[o];
      assert o / BSIZE != bn ==> o < |files[i]|;
      assert o / BSIZE != bn ==> ByteAt(ino, blocks, i, o) == files[i][o] && DataSlot(i, o / BSIZE) != s;
    }
  }

  // ------------------------------------------------------------- truncation

  lemma ReleaseOwned(owner: map<nat, Slot>, ino: seq<Inode>, blocks: seq<Block>, ino': seq<Inode>, blocks': seq<Block>,
      s: Slot)
    requires Shape(ino, blocks) && Shape(ino', blocks') && |ino| == |ino'| && |blocks| == |blocks'|
    requires Owned(owner, ino, blocks) && OnlySlot(ino, blocks, ino', blocks', s, 0) && Val(ino, blocks, s) != 0
    ensures Val(ino, blocks, s) in owner && Owned(owner - {Val(ino, blocks, s)}, ino', blocks')
  {
    var b := Val(ino, blocks, s);
    assert SlotOwned(owner, ino, blocks, s);
    forall t | InRange(t, |ino|) ensures SlotOwned(owner - {b}, ino', blocks', t) {
      assert SlotOwned(owner, ino, blocks, t);
    }
  }

  lemma MarkLess(bits: seq<bool>, owner: map<nat, Slot>, dataStart: nat, b: nat)
    requires Marked(bits, owner, dataStart) && b in owner
    ensures b < |bits| && bits[b] && Marked(bits[b := false], owner - {b}, dataStart)
  {
  }

  lemma FreeDirect(bits: seq<bool>, blocks: seq<Block>, ino: seq<Inode>, owner: map<nat, Slot>, files: seq<seq<Byte>>,
      dataStart: nat, i: nat, k: nat)
    requires FsOk(bits, blocks, ino, owner, files, dataStart) && i < |ino| && k <= NDIRECT && files[i] == []
    requires ino[i].addrs[k] != 0
    requires k == NDIRECT ==> forall j :: 0 <= j < NINDIRECT ==> Val(ino, blocks, Leaf(i, j)) == 0
    ensures var b := ino[i].addrs[k];
            && b < |bits| && bits[b] && b in owner && owner[b] == Direct(i, k)
            && FsOk(bits[b := false], blocks, ino[i := ino[i].(addrs := ino[i].addrs[k := 0])], owner - {b}, files,
                    dataStart)
  {
    var s, b := Direct(i, k), ino[i].addrs[k];
    var ino' := ino[i := ino[i].(addrs := ino[i].addrs[k := 0])];
    SetDirect(ino, blocks, i, k, 0, s);
    forall t | InRange(t, |ino|) ensures Val(ino', blocks, t) == if t == s then 0 else Val(ino, blocks, t) {
      SetDirect(ino, blocks, i, k, 0, t);
    }
    ReleaseOwned(owner, ino, blocks, ino', blocks, s);
    assert SlotOwned(owner, ino, blocks, s);
    MarkLess(bits, owner, dataStart, b);
    forall i' | 0 <= i' < |ino| ensures Holds(ino', blocks, i', files[i']) {
      if i' != i {
        KeepHolds(ino, blocks, ino', blocks, i', files[i']);
      }
    }
  }

  lemma FreeLeaf(bits: seq<bool>, blocks: seq<Block>, ino: seq<Inode>, owner: map<nat, Slot>, files: seq<seq<Byte>>,
      dataStart: nat, i: nat, j: nat)
    requires FsOk(bits, blocks, ino, owner, files, dataStart) && i < |ino| && j < NINDIRECT && files[i] == []
    requires Val(ino, blocks, Leaf(i, j)) != 0
    ensures var b, ind := Val(ino, blocks, Leaf(i, j)), ino[i].addrs[NDIRECT];
            && b < |bits| && bits[b] && b in owner && owner[b] == Leaf(i, j) && ind != 0
            && FsOk(bits[b := false], blocks[ind := PutWord(blocks[ind], j, 0)], ino, owner - {b}, files, dataStart)
  {
    var s, ind := Leaf(i, j), ino[i].addrs[NDIRECT];
    var b := Val(ino, blocks, s);
    var after := blocks[ind := PutWord(blocks[ind], j, 0)];
    SetLeaf(owner, ino, blocks, i, j, 0, s);
    forall t | InRange(t, |ino|) ensures Val(ino, after, t) == if t == s then 0 else Val(ino, blocks, t) {
      SetLeaf(owner, ino, blocks, i, j, 0, t);
    }
    ReleaseOwned(owner, ino, blocks, ino, after, s);
    assert SlotOwned(owner, ino, blocks, s);
    MarkLess(bits, owner, dataStart, b);
    forall i' | 0 <= i' < |ino| && i' != i ensures Holds(ino, after, i', files[i']) {
      forall bn | 0 <= bn < MAXFILE ensures SameData(ino, blocks, ino, after, DataSlot(i', bn)) {
        IndirectNotData(owner, ino, blocks, i, i', bn);
      }
      KeepHolds(ino, blocks, ino, after, i', files[i']);
    }
  }

  // What a free block holds does not matter.
  lemma OverwriteFree(bits: seq<bool>, blocks: seq<Block>, ino: seq<Inode>, owner: map<nat, Slot>,
      files: seq<seq<Byte>>,
      dataStart: nat, b: nat, data: Block)
    requires FsOk(bits, blocks, ino, owner, files, dataStart) && b < |blocks| && b !in owner && |data| == BSIZE
    ensures FsOk(bits, blocks[b := data], ino, owner, files, dataStart)
  {
    var after := blocks[b := data];
    assert Shape(ino, after);
    forall t | InRange(t, |ino|)
      ensures Val(ino, after, t) == Val(ino, blocks, t) && (Val(ino, blocks, t) != 0 ==> Val(ino, blocks, t) != b)
    {
      UnownedVal(owner, ino, blocks, b, data, t);
    }
    OwnedSame(owner, ino, blocks, after);
    forall i' | 0 <= i' < |ino| ensures Holds(ino, after, i', files[i']) {
      KeepHolds(ino, blocks, ino, after, i', files[i']);
    }
  }

  // -------------------------------------------------------- flat byte ranges

  function Min(a: nat, b: nat): nat {
    if a < b then a else b
  }

  // c with d written at off, longer if d runs past the end.
  function Overwrite(c: seq<Byte>, off: nat, d: seq<Byte>): (r: seq<Byte>)
    requires off <= |c|
    ensures |r| == if off + |d| < |c| then |c| else off + |d|
    ensures forall o {:trigger r[o]} :: 0 <= o < |r| ==> r[o] == if off <= o < off + |d| then d[o - off] else c[o]
  {
    c[..off] + d + if off + |d| < |c| then c[off + |d|..] else []
  }

  // The part of one block from offset p of the file on holds the file's bytes.
  lemma ChunkRead(ino: seq<Inode>, blocks: seq<Block>, i: nat, c: seq<Byte>, p: nat, m: nat)
    requires Shape(ino, blocks) && i < |ino| && Holds(ino, blocks, i, c) && p + m <= |c| && 1 <= m <= BSIZE - p % BSIZE
    ensures var b := Val(ino, blocks, DataSlot(i, p / BSIZE));
            0 < b < |blocks| && blocks[b][p % BSIZE..p % BSIZE + m] == c[p..p + m]
  {
    var b := Val(ino, blocks, DataSlot(i, p / BSIZE));
    assert ByteAt(ino, blocks, i, p) == c[p];
    var got, want := blocks[b][p % BSIZE..p % BSIZE + m], c[p..p + m];
    forall k | 0 <= k < m ensures got[k] == want[k] {
      SameBlock(p, k);
      assert ByteAt(ino, blocks, i, p + k) == c[p + k];
    }
  }

  lemma SameBlock(p: nat, k: nat)
    requires k < BSIZE - p % BSIZE
    ensures (p + k) / BSIZE == p / BSIZE && (p + k) % BSIZE == p % BSIZE + k
  {
  }

  // The block with m bytes of d from its p % BSIZE-th byte on.
  function Splice(was: Block, p: nat, d: seq<Byte>): (r: Block)
    requires |was| == BSIZE && |d| <= BSIZE - p % BSIZE
    ensures |r| == BSIZE
    ensures forall k {:trigger r[k]} :: 0 <= k < BSIZE ==>
      r[k] == if p % BSIZE <= k < p % BSIZE + |d| then d[k - p % BSIZE] else was[k]
  {
    was[..p % BSIZE] + d + was[p % BSIZE + |d|..]
  }

  // Writing the next bytes into their block writes them into the file.
  lemma PatchStep(ino: seq<Inode>, blocks: seq<Block>, i: nat, c: seq<Byte>, off: nat, d: seq<Byte>, more: seq<Byte>)
    requires Shape(ino, blocks) && i < |ino| && off <= |c| && off + |d| + |more| <= MAXFILE * BSIZE
    requires |c| <= MAXFILE * BSIZE
    requires Holds(ino, blocks, i, Overwrite(c, off, d)) && 1 <= |more| <= BSIZE - (off + |d|) % BSIZE
    requires 0 < Val(ino, blocks, DataSlot(i, (off + |d|) / BSIZE)) < |blocks|
    ensures var p := off + |d|;
            var b := Val(ino, blocks, DataSlot(i, p / BSIZE));
            Patched(Overwrite(c, off, d), p / BSIZE, Splice(blocks[b], p, more), Overwrite(c, off, d + more))
  {
    var p := off + |d|;
    var cur, next := Overwrite(c, off, d), Overwrite(c, off, d + more);
    var b := Val(ino, blocks, DataSlot(i, p / BSIZE));
    forall o | 0 <= o < |next|
      ensures if o / BSIZE == p / BSIZE then next[o] == Splice(blocks[b], p, more)[o % BSIZE]
              else o < |cur| && next[o] == cur[o]
    {
      if o < |cur| {
        assert ByteAt(ino, blocks, i, o) == cur[o];
      }
      PatchAt(p, |more|, o);
    }
  }

  // o lies in the range exactly when it lies in the block, at those places.
  lemma PatchAt(p: nat, m: nat, o: nat)
    requires 1 <= m <= BSIZE - p % BSIZE
    ensures p <= o < p + m ==> o / BSIZE == p / BSIZE && o % BSIZE == p % BSIZE + (o - p)
    ensures o / BSIZE == p / BSIZE ==> (p <= o < p + m <==> p % BSIZE <= o % BSIZE < p % BSIZE + m)
  {
  }

  lemma WriteStep(bits: seq<bool>, blocks: seq<Block>, ino: seq<Inode>, owner: map<nat, Slot>, files: seq<seq<Byte>>,
      dataStart: nat, i: nat, c: seq<Byte>, off: nat, d: seq<Byte>, more: seq<Byte>)
    requires FsOk(bits, blocks, ino, owner, files, dataStart) && i < |ino|
    requires off <= |c| <= MAXFILE * BSIZE && files[i] == Overwrite(c, off, d)
    requires off + |d| + |more| <= MAXFILE * BSIZE && 1 <= |more| <= BSIZE - (off + |d|) % BSIZE
    requires Val(ino, blocks, DataSlot(i, (off + |d|) / BSIZE)) != 0
    ensures var p := off + |d|;
            var b := Val(ino, blocks, DataSlot(i, p / BSIZE));
            && b < |blocks| && |blocks[b]| == BSIZE
            && FsOk(bits, blocks[b := Splice(blocks[b], p, more)], ino, owner, files[i := Overwrite(c, off, d + more)],
                    dataStart)
  {
    var p := off + |d|;
    var s := DataSlot(i, p / BSIZE);
    assert SlotOwned(owner, ino, blocks, s);
    PatchStep(ino, blocks, i, c, off, d, more);
    WriteData(bits, blocks, ino, owner, files, dataStart, i, p / BSIZE,
              Splice(blocks[Val(ino, blocks, s)], p, more), Overwrite(c, off, d + more));
  }

  // The size field plays no part in the block map.
  lemma SizeStep(bits: seq<bool>, blocks: seq<Block>, ino: seq<Inode>, owner: map<nat, Slot>, files: seq<seq<Byte>>,
      dataStart: nat, i: nat, size: nat)
    requires FsOk(bits, blocks, ino, owner, files, dataStart) && i < |ino|
    ensures FsOk(bits, blocks, ino[i := ino[i].(size := size)], owner, files, dataStart)
  {
    var ino' := ino[i := ino[i].(size := size)];
    assert Shape(ino', blocks);
    forall t | InRange(t, |ino|)
      ensures Val(ino', blocks, t) == Val(ino, blocks, t) && SlotOwned(owner, ino', blocks, t)
    {
      assert SlotOwned(owner, ino, blocks, t);
    }
    forall i' | 0 <= i' < |ino| ensures Holds(ino', blocks, i', files[i']) {
      KeepHolds(ino, blocks, ino', blocks, i', files[i']);
    }
  }

  // Truncation starts by giving up the bytes.
  lemma Forget(bits: seq<bool>, blocks: seq<Block>, ino: seq<Inode>, owner: map<nat, Slot>, files: seq<seq<Byte>>,
      dataStart: nat, i: nat)
    requires FsOk(bits, blocks, ino, owner, files, dataStart) && i < |ino|
    ensures FsOk(bits, blocks, ino, owner, files[i := []], dataStart)
  {
    assert Holds(ino, blocks, i, []);
  }

  // An inode whose addresses are all zero owns nothing.
  lemma NoneLeft(owner: map<nat, Slot>, ino: seq<Inode>, blocks: seq<Block>, i: nat)
    requires Shape(ino, blocks) && Owned(owner, ino, blocks) && i < |ino|
    requires forall k :: 0 <= k <= NDIRECT ==> ino[i].addrs[k] == 0
    ensures forall b :: b in owner ==> owner[b].i != i
  {
  }

  // A disk without files: only the metadata blocks are in use.
  lemma EmptyFsOk(bits: seq<bool>, blocks: seq<Block>, ino: seq<Inode>, files: seq<seq<Byte>>, dataStart: nat)
    requires Shape(ino, blocks) && |bits| == |blocks| && dataStart >= 1 && |files| == |ino|
    requires forall b :: 0 <= b < |bits| ==> (bits[b] <==> b < dataStart)
    requires forall i :: 0 <= i < |ino| ==> files[i] == [] && forall k :: 0 <= k <= NDIRECT ==> ino[i].addrs[k] == 0
    ensures FsOk(bits, blocks, ino, map[], files, dataStart)
  {
    forall s | InRange(s, |ino|) ensures SlotOwned(map[], ino, blocks, s) {
      assert Val(ino, blocks, s) == 0;
    }
  }
}
