// log.c as it runs: the in-memory log struct over a disk, updated in place.
// Every method is tied to the write lists and state functions that the crash
// and interleaving proofs are about.
module LogDevice {
  import opened Common
  import opened LogFormat
  import opened LogCrash
  import LogSystem

  datatype LogResult = Ok | Sleeps | Panics(message: string)

  class Log {
    const region: Region
    var disk: Disk                // what survives a crash
    var mem: map<nat, Block>      // contents of pinned buffers
    var lh: seq<nat>              // lh.block[..lh.n]
    var outstanding: nat
    var committing: bool
    ghost var issued: seq<Write>  // every disk write so far, in order

    ghost predicate Valid()
      reads this
    {
      && WellFormed(region, disk)
      && |lh| <= LOGSIZE
      && HomeBlocks(region, disk, lh)
      && mem.Keys == set b | b in lh
    }

    // A fresh boot: initlog() recovers before any operation runs.
    constructor (region: Region, disk: Disk)
      requires WellFormed(region, disk)
      ensures Valid() && this.region == region
      ensures Home(region, this.disk) == Recovered(region, disk)
      ensures this.disk[region.start].named == []
      ensures issued == RecoverWrites(region, disk) && this.disk == Apply(disk, issued)
      ensures lh == [] && outstanding == 0 && !committing
    {
      this.region := region;
      this.disk := disk;
      mem, lh, outstanding, committing, issued := map[], [], 0, false, [];
      new;
      RecoverFromLog();
    }

    // bread(): a pinned buffer, else the disk.
    function Bread(b: nat): Block
      requires b in mem || b in disk
      reads this
    {
      if b in mem then mem[b] else disk[b]
    }

    method Bwrite(b: nat, content: Block)
      modifies this`disk, this`issued
      ensures disk == old(disk)[b := content]
      ensures issued == old(issued) + [Write(b, content)]
    {
      disk := disk[b := content];
      issued := issued + [Write(b, content)];
    }

    method WriteLog()
      requires Valid() && disk[region.start].named == []
      modifies this`disk, this`issued
      ensures disk == Apply(old(disk), SaveWrites(region, lh, mem))
      ensures issued == old(issued) + SaveWrites(region, lh, mem)
    {
      ghost var ws := SaveWrites(region, lh, mem);
      for tail := 0 to |lh|
        invariant disk == Apply(old(disk), ws[..tail])
        invariant issued == old(issued) + ws[..tail]
      {
        var from := Bread(lh[tail]);
        Bwrite(region.start + tail + 1, from);
        ApplyPrefix(old(disk), ws, tail);
        assert ws[..tail + 1] == ws[..tail] + [ws[tail]];
      }
      assert ws[..|lh|] == ws;
    }

    method WriteHead()
      modifies this`disk, this`issued
      ensures disk == old(disk)[region.start := Header(lh)]
      ensures issued == old(issued) + [HeadWrite(region, lh)]
    {
      Bwrite(region.start, Header(lh));
    }

    // Copies the logged blocks home; with recovering false each is unpinned.
    method InstallTrans(recovering: bool)
      requires LogBlocksExist(region, disk) && |lh| <= LOGSIZE && HomeBlocks(region, disk, lh)
      requires forall b :: b in mem ==> !InLog(region, b)
      modifies this`disk, this`issued, this`mem
      ensures disk == Apply(old(disk), InstallWrites(region, lh, old(disk)))
      ensures issued == old(issued) + InstallWrites(region, lh, old(disk))
      ensures mem == if recovering then old(mem) else old(mem) - (set b | b in lh)
    {
      ghost var ws := InstallWrites(region, lh, old(disk));
      for tail := 0 to |lh|
        invariant disk == Apply(old(disk), ws[..tail])
        invariant issued == old(issued) + ws[..tail]
        invariant mem == if recovering then old(mem) else old(mem) - (set b | b in lh[..tail])
      {
        ApplyFrame(old(disk), ws[..tail], LogDataAt(region, tail));
        var lbuf := Bread(region.start + tail + 1);
        Bwrite(lh[tail], lbuf);
        ApplyPrefix(old(disk), ws, tail);
        assert ws[..tail + 1] == ws[..tail] + [ws[tail]];
        if !recovering {
          mem := mem - {lh[tail]};
        }
        assert lh[..tail + 1] == lh[..tail] + [lh[tail]];
      }
      assert ws[..|lh|] == ws;
      assert lh[..|lh|] == lh;
    }

    // write_log(); write_head()
    method SaveAndHead()
      requires Valid() && disk[region.start].named == []
      modifies this`disk, this`issued
      ensures disk == Saved(region, old(disk), lh, mem)
      ensures issued == old(issued) + (SaveWrites(region, lh, mem) + [HeadWrite(region, lh)])
    {
      WriteLog();
      WriteHead();
      ApplyAppend(old(disk), SaveWrites(region, lh, mem), HeadWrite(region, lh));
    }

    // install_trans(recovering); log.lh.n = 0; write_head()
    method InstallAndErase(recovering: bool)
      requires LogBlocksExist(region, disk) && |lh| <= LOGSIZE && HomeBlocks(region, disk, lh)
      requires forall b :: b in mem ==> !InLog(region, b)
      modifies this`disk, this`issued, this`mem, this`lh
      ensures disk == Apply(old(disk), InstallWrites(region, old(lh), old(disk)) + [HeadWrite(region, [])])
      ensures issued == old(issued) + (InstallWrites(region, old(lh), old(disk)) + [HeadWrite(region, [])])
      ensures lh == [] && mem == if recovering then old(mem) else old(mem) - (set b | b in old(lh))
    {
      InstallTrans(recovering);
      lh := [];
      WriteHead();
      ApplyAppend(old(disk), InstallWrites(region, old(lh), old(disk)), HeadWrite(region, []));
    }

    // commit(): the writes it issues, and with them what a crash between any
    // two of them leaves behind.
    method Commit()
      requires Valid() && disk[region.start].named == []
      modifies this`disk, this`issued, this`mem, this`lh
      ensures Valid() && lh == [] && disk[region.start].named == []
      ensures issued == old(issued) + CommitWrites(region, old(disk), old(lh), old(mem))
      ensures disk == Apply(old(disk), CommitWrites(region, old(disk), old(lh), old(mem)))
      ensures Home(region, disk) == Home(region, old(disk)) + old(mem)
      ensures CommitAtomic(region, old(disk), old(lh), old(mem))
    {
      if |lh| > 0 {
        CommitPlan(region, disk, lh, mem);
        SaveAndHead();
        ghost var half := issued;
        InstallAndErase(false);
        assert issued == old(issued) + CommitWrites(region, old(disk), old(lh), old(mem)) by {
          assert half[..|old(issued)|] == old(issued);
        }
        assert mem == map[];
      }
      CommitCompletes(region, old(disk), old(lh), old(mem));
      CommitIsAtomic(region, old(disk), old(lh), old(mem));
    }

    // The writes issued since before, on disk d, are crash atomic: the blocks of the
    // transaction are all there from the header write on, and none is before it.
    ghost predicate Issues(before: seq<Write>, d: Disk, names: seq<nat>, blocks: map<nat, Block>)
      requires WellFormed(region, d)
      reads this
    {
      && before <= issued && disk == Apply(d, issued[|before|..])
      && AtomicWrites(region, d, issued[|before|..], blocks, |names|)
    }

    method ReadHead()
      requires WellFormed(region, disk) && region.start !in mem
      modifies this`lh
      ensures lh == disk[region.start].named
    {
      var hb := Bread(region.start);
      lh := [];
      for i := 0 to |hb.named|
        invariant lh == hb.named[..i]
      {
        lh := lh + [hb.named[i]];
      }
    }

    // recover_from_log(): the home blocks become what the log promised, and
    // a crash between any two of its writes changes nothing about that.
    method RecoverFromLog()
      requires WellFormed(region, disk) && mem == map[]
      modifies this`disk, this`issued, this`mem, this`lh
      ensures Valid() && lh == [] && disk[region.start].named == []
      ensures issued == old(issued) + RecoverWrites(region, old(disk))
      ensures disk == Apply(old(disk), RecoverWrites(region, old(disk)))
      ensures Home(region, disk) == Recovered(region, old(disk))
      ensures RecoveryAtomic(region, old(disk))
    {
      ReadHead();
      InstallAndErase(true);
      RecoveryCompletes(region, old(disk));
      RecoveryIsAtomic(region, old(disk));
    }

    // One trip around begin_op()'s loop.
    method TryBeginOp() returns (res: LogResult)
      modifies this`outstanding
      ensures res.Ok? <==> !committing && |lh| + (old(outstanding) + 1) * MAXOPBLOCKS <= LOGSIZE
      ensures res.Ok? || res.Sleeps?
      ensures outstanding == old(outstanding) + if res.Ok? then 1 else 0
    {
      if committing {
        return Sleeps;
      } else if |lh| + (outstanding + 1) * MAXOPBLOCKS > LOGSIZE {
        return Sleeps;
      }
      outstanding := outstanding + 1;
      return Ok;
    }

    // log_write() of a buffer holding content: absorbed or appended.
    method LogWrite(b: nat, content: Block) returns (res: LogResult)
      requires Valid() && b in disk && !InLog(region, b)
      modifies this`lh, this`mem
      ensures Valid()
      ensures res.Ok? <==> |old(lh)| < LOGSIZE && |old(lh)| < region.size - 1 && outstanding >= 1
      ensures res.Ok? ==> lh == LogSystem.Absorb(old(lh), b) && mem == old(mem)[b := content]
      ensures !res.Ok? ==> res.Panics? && lh == old(lh) && mem == old(mem)
    {
      if |lh| >= LOGSIZE || |lh| >= region.size - 1 {
        return Panics("too big a transaction");
      }
      if outstanding < 1 {
        return Panics("log_write outside of trans");
      }
      var i := 0;
      while i < |lh|
        invariant 0 <= i <= |lh|
        invariant b !in lh[..i]
      {
        if lh[i] == b {
          break;
        }
        i := i + 1;
      }
      if i == |lh| {
        lh := lh + [b];
      } else {
        lh := lh[i := b];
        assert lh == old(lh);
      }
      mem := mem[b := content];
      return Ok;
    }

    // end_op(): the last operation out commits everything.
    method EndOp() returns (res: LogResult)
      requires Valid() && disk[region.start].named == [] && outstanding >= 1
      modifies this
      ensures res.Panics? <==> old(committing)
      ensures res.Ok? ==> Valid() && disk[region.start].named == [] && !committing
      ensures outstanding == old(outstanding) - 1
      ensures res.Ok? && outstanding == 0 ==> lh == [] && Home(region, disk) == Home(region, old(disk)) + old(mem)
      ensures res.Ok? && outstanding == 0 ==> Issues(old(issued), old(disk), old(lh), old(mem))
      ensures !res.Ok? || outstanding > 0 ==>
        lh == old(lh) && mem == old(mem) && disk == old(disk) && issued == old(issued) && committing == old(committing)
    {
      outstanding := outstanding - 1;
      if committing {
        return Panics("log.committing");
      }
      if outstanding == 0 {
        committing := true;
        Commit();
        assert issued[|old(issued)|..] == CommitWrites(region, old(disk), old(lh), old(mem));
        committing := false;
      }
      return Ok;
    }
  }
}
