// The on-disk redo log: where it lives, the disk writes that commit() and
// recover_from_log() issue in order, and what recovery would make of a disk.
module LogFormat {

  const LOGSIZE := 30

  type Data = seq<bv8>

  // The log header block is the only block whose inner structure matters
  // here: the n block numbers that read_head() will see. Entries beyond n are
  // never read, so they are not represented.
  datatype Block = Header(named: seq<nat>) | Bytes(data: Data)

  type Disk = map<nat, Block>

  datatype Write = Write(blockno: nat, content: Block)

  // log.start and log.size: the header block followed by the log blocks.
  datatype Region = Region(start: nat, size: nat)

  predicate InLog(r: Region, b: nat) {
    r.start <= b < r.start + r.size
  }

  function LogDataAt(r: Region, i: nat): nat {
    r.start + i + 1
  }

  // Sectors reach the disk one whole block at a time, in program order.
  function Apply(d: Disk, ws: seq<Write>): Disk {
    if ws == [] then d
    else
      var last := ws[|ws| - 1];
      Apply(d, ws[..|ws| - 1])[last.blockno := last.content]
  }

  // The disk when the machine stops after k of the writes ws.
  function Crashed(d: Disk, ws: seq<Write>, k: nat): Disk
    requires k <= |ws|
  {
    Apply(d, ws[..k])
  }

  function Home(r: Region, d: Disk): Disk {
    map b | b in d && !InLog(r, b) :: d[b]
  }

  ghost predicate LogBlocksExist(r: Region, d: Disk) {
    && LOGSIZE < r.size
    && r.start in d
    && forall i :: 0 <= i < LOGSIZE ==> LogDataAt(r, i) in d
  }

  ghost predicate HomeBlocks(r: Region, d: Disk, blocks: seq<nat>) {
    forall i :: 0 <= i < |blocks| ==> blocks[i] in d && !InLog(r, blocks[i])
  }

  // A disk that recover_from_log() can read: the header names at most LOGSIZE
  // blocks, all of them outside the log.
  ghost predicate WellFormed(r: Region, d: Disk) {
    && LogBlocksExist(r, d)
    && d[r.start].Header?
    && |d[r.start].named| <= LOGSIZE
    && HomeBlocks(r, d, d[r.start].named)
  }

  // The last position holding b, or -1.
  function LastSlot(blocks: seq<nat>, b: nat): (i: int)
    ensures -1 <= i < |blocks|
    ensures i >= 0 ==> blocks[i] == b && b in blocks
    ensures i == -1 ==> b !in blocks
  {
    if blocks == [] then -1
    else if blocks[|blocks| - 1] == b then |blocks| - 1
    else LastSlot(blocks[..|blocks| - 1], b)
  }

  // What the file system will see of d after a crash: a block named by a
  // committed header has the content saved in the log, any other its own.
  ghost function Recovered(r: Region, d: Disk): Disk
    requires WellFormed(r, d)
  {
    map b | b in d && !InLog(r, b) ::
      var i := LastSlot(d[r.start].named, b);
      if i >= 0 then d[LogDataAt(r, i)] else d[b]
  }

  // ---------------------------------------------------------------- writes

  function SaveWrites(r: Region, lh: seq<nat>, mem: map<nat, Block>): (ws: seq<Write>)
    requires forall b :: b in lh ==> b in mem
    ensures |ws| == |lh|
    ensures forall i {:trigger ws[i]} :: 0 <= i < |lh| ==> ws[i] == Write(LogDataAt(r, i), mem[lh[i]])
  {
    if lh == [] then []
    else
      var i := |lh| - 1;
      SaveWrites(r, lh[..i], mem) + [Write(LogDataAt(r, i), mem[lh[i]])]
  }

  function HeadWrite(r: Region, lh: seq<nat>): Write {
    Write(r.start, Header(lh))
  }

  // install_trans(): copy log block i to the i-th named block.
  function InstallWrites(r: Region, blocks: seq<nat>, d: Disk): (ws: seq<Write>)
    requires forall i :: 0 <= i < |blocks| ==> LogDataAt(r, i) in d
    ensures |ws| == |blocks|
    ensures forall i {:trigger ws[i]} :: 0 <= i < |blocks| ==> ws[i] == Write(blocks[i], d[LogDataAt(r, i)])
  {
    if blocks == [] then []
    else
      var i := |blocks| - 1;
      InstallWrites(r, blocks[..i], d) + [Write(blocks[i], d[LogDataAt(r, i)])]
  }

  ghost predicate Committable(r: Region, d: Disk, lh: seq<nat>, mem: map<nat, Block>) {
    && WellFormed(r, d)
    && d[r.start].named == []
    && |lh| <= LOGSIZE
    && HomeBlocks(r, d, lh)
    && mem.Keys == set b | b in lh
  }

  // The disk once write_log() and the first write_head() are done.
  ghost function Saved(r: Region, d: Disk, lh: seq<nat>, mem: map<nat, Block>): Disk
    requires Committable(r, d, lh, mem)
  {
    Apply(d, SaveWrites(r, lh, mem) + [HeadWrite(r, lh)])
  }

  // commit(): save the blocks, write the header, install, erase the header.
  ghost function CommitWrites(r: Region, d: Disk, lh: seq<nat>, mem: map<nat, Block>): (ws: seq<Write>)
    requires Committable(r, d, lh, mem)
    ensures |ws| == if lh == [] then 0 else 2 * |lh| + 2
  {
    if lh == [] then []
    else
      var saved := SaveWrites(r, lh, mem) + [HeadWrite(r, lh)];
      saved + HomeWrites(lh, mem) + [HeadWrite(r, [])]
  }

  function HomeWrites(lh: seq<nat>, mem: map<nat, Block>): (ws: seq<Write>)
    requires forall b :: b in lh ==> b in mem
    ensures |ws| == |lh|
    ensures forall i {:trigger ws[i]} :: 0 <= i < |lh| ==> ws[i] == Write(lh[i], mem[lh[i]])
  {
    if lh == [] then []
    else
      var i := |lh| - 1;
      HomeWrites(lh[..i], mem) + [Write(lh[i], mem[lh[i]])]
  }

  // recover_from_log(): install whatever the header names, erase the header.
  ghost function RecoverWrites(r: Region, d: Disk): (ws: seq<Write>)
    requires WellFormed(r, d)
    ensures |ws| == |d[r.start].named| + 1
  {
    InstallWrites(r, d[r.start].named, d) + [HeadWrite(r, [])]
  }
}
