// Crash atomicity of the redo log: what any prefix of the writes of commit()
// or of recover_from_log() leaves behind, and any chain of crashes after it.
module LogCrash {
  import opened LogFormat

  lemma ApplyAppend(d: Disk, ws: seq<Write>, w: Write)
    ensures Apply(d, ws + [w]) == Apply(d, ws)[w.blockno := w.content]
  {
    assert (ws + [w])[..|ws|] == ws;
  }

  lemma ApplyPrefix(d: Disk, ws: seq<Write>, k: nat)
    requires k < |ws|
    ensures Apply(d, ws[..k + 1]) == Apply(d, ws[..k])[ws[k].blockno := ws[k].content]
  {
    assert ws[..k + 1][..k] == ws[..k];
  }

  lemma {:induction false} ApplyConcat(d: Disk, xs: seq<Write>, ys: seq<Write>)
    ensures Apply(d, xs + ys) == Apply(Apply(d, xs), ys)
    decreases |ys|
  {
    if ys == [] {
      assert xs + ys == xs;
    } else {
      var front := ys[..|ys| - 1];
      ApplyConcat(d, xs, front);
      assert (xs + ys)[..|xs + ys| - 1] == xs + front;
    }
  }

  // Blocks that no write names keep their content.
  lemma {:induction false} ApplyFrame(d: Disk, ws: seq<Write>, b: nat)
    requires forall i :: 0 <= i < |ws| ==> ws[i].blockno != b
    ensures b in Apply(d, ws) <==> b in d
    ensures b in d ==> Apply(d, ws)[b] == d[b]
  {
    if ws != [] {
      ApplyFrame(d, ws[..|ws| - 1], b);
    }
  }

  // Writes never create blocks when they name existing ones.
  lemma {:induction false} ApplyKeys(d: Disk, ws: seq<Write>)
    requires forall i :: 0 <= i < |ws| ==> ws[i].blockno in d
    ensures Apply(d, ws).Keys == d.Keys
  {
    if ws != [] {
      ApplyKeys(d, ws[..|ws| - 1]);
    }
  }

  // A block whose last write is at position i holds that write's content.
  lemma {:induction false} ApplyLast(d: Disk, ws: seq<Write>, i: nat)
    requires i < |ws|
    requires forall j :: i < j < |ws| ==> ws[j].blockno != ws[i].blockno
    ensures ws[i].blockno in Apply(d, ws)
    ensures Apply(d, ws)[ws[i].blockno] == ws[i].content
  {
    if i < |ws| - 1 {
      ApplyLast(d, ws[..|ws| - 1], i);
    }
  }

  lemma {:induction false} LastSlotIsLast(blocks: seq<nat>, b: nat, j: nat)
    requires j < |blocks| && LastSlot(blocks, b) < j
    ensures blocks[j] != b
  {
    if j < |blocks| - 1 {
      LastSlotIsLast(blocks[..|blocks| - 1], b, j);
    }
  }

  // ------------------------------------------------------------- recovery

  // Recovery looks only at the log and at the blocks the header leaves out.
  lemma RecoveredDependsOn(r: Region, d: Disk, d': Disk)
    requires WellFormed(r, d)
    requires d'.Keys == d.Keys
    requires forall b :: b in d && InLog(r, b) ==> d'[b] == d[b]
    requires forall b :: b in d && b !in d[r.start].named ==> d'[b] == d[b]
    ensures WellFormed(r, d') && Recovered(r, d') == Recovered(r, d)
  {
    var named := d[r.start].named;
    forall b | b in d && !InLog(r, b)
      ensures Recovered(r, d')[b] == Recovered(r, d)[b]
    {
    }
  }

  // Installing any number of the named blocks does not change what recovery
  // will produce: redo is idempotent.
  lemma PartialInstall(r: Region, d: Disk, k: nat)
    requires WellFormed(r, d)
    requires k <= |d[r.start].named|
    ensures var named := d[r.start].named;
            var d' := Apply(d, InstallWrites(r, named, d)[..k]);
            && WellFormed(r, d') && Recovered(r, d') == Recovered(r, d)
            && d'[r.start] == d[r.start]
  {
    var named := d[r.start].named;
    var ws := InstallWrites(r, named, d)[..k];
    var d' := Apply(d, ws);
    ApplyKeys(d, ws);
    forall b | b in d && (InLog(r, b) || b !in named)
      ensures d'[b] == d[b]
    {
      ApplyFrame(d, ws, b);
    }
    RecoveredDependsOn(r, d, d');
  }

  lemma InstalledBlock(r: Region, d: Disk, b: nat)
    requires WellFormed(r, d)
    requires b in d && !InLog(r, b)
    ensures var d' := Apply(d, InstallWrites(r, d[r.start].named, d));
            b in d' && d'[b] == Recovered(r, d)[b]
  {
    var named := d[r.start].named;
    var ws := InstallWrites(r, named, d);
    var i := LastSlot(named, b);
    if i >= 0 {
      forall j | i < j < |ws| ensures ws[j].blockno != b {
        LastSlotIsLast(named, b, j);
      }
      ApplyLast(d, ws, i);
    } else {
      ApplyFrame(d, ws, b);
    }
  }

  // Installing all of them makes the home blocks what recovery promises.
  lemma FullInstall(r: Region, d: Disk)
    requires WellFormed(r, d)
    ensures var named := d[r.start].named;
            Home(r, Apply(d, InstallWrites(r, named, d))) == Recovered(r, d)
  {
    var ws := InstallWrites(r, d[r.start].named, d);
    ApplyKeys(d, ws);
    forall b | b in d && !InLog(r, b)
      ensures Home(r, Apply(d, ws))[b] == Recovered(r, d)[b]
    {
      InstalledBlock(r, d, b);
    }
  }

  lemma EraseHeader(r: Region, d: Disk)
    requires WellFormed(r, d)
    ensures var w := HeadWrite(r, []);
            var d' := d[w.blockno := w.content];
            WellFormed(r, d') && d'[r.start].named == [] && Home(r, d') == Home(r, d) && Recovered(r, d') == Home(r, d)
  {
    var w := HeadWrite(r, []);
    var d' := d[w.blockno := w.content];
  }

  // A crash after any k of recovery's own writes loses nothing: the next
  // recovery produces the same home blocks.
  lemma RecoveryCrashPoint(r: Region, d: Disk, k: nat)
    requires WellFormed(r, d)
    requires k <= |RecoverWrites(r, d)|
    ensures var d' := Apply(d, RecoverWrites(r, d)[..k]);
            WellFormed(r, d') && Recovered(r, d') == Recovered(r, d)
            && (k == |RecoverWrites(r, d)| ==> d'[r.start].named == [] && Home(r, d') == Recovered(r, d))
  {
    var n := |d[r.start].named|;
    var named := d[r.start].named;
    var install := InstallWrites(r, named, d);
    var ws := RecoverWrites(r, d);
    if k <= n {
      assert ws[..k] == install[..k];
      PartialInstall(r, d, k);
    } else {
      assert ws[..k] == install + [ws[n]];
      ApplyAppend(d, install, ws[n]);
      assert install[..n] == install;
      PartialInstall(r, d, n);
      FullInstall(r, d);
      EraseHeader(r, Apply(d, install));
    }
  }

  // What recovery promises about every crash point, as one statement.
  ghost predicate RecoveryAtomic(r: Region, d: Disk)
    requires WellFormed(r, d)
  {
    var ws := RecoverWrites(r, d);
    forall k :: 0 <= k <= |ws| ==>
      WellFormed(r, Crashed(d, ws, k)) && Recovered(r, Crashed(d, ws, k)) == Recovered(r, d)
  }

  lemma RecoveryIsAtomic(r: Region, d: Disk)
    requires WellFormed(r, d)
    ensures RecoveryAtomic(r, d)
  {
    forall k | 0 <= k <= |RecoverWrites(r, d)| {
      RecoveryCrashPoint(r, d, k);
    }
  }

  lemma RecoveryCompletes(r: Region, d: Disk)
    requires WellFormed(r, d)
    ensures var d' := Apply(d, RecoverWrites(r, d));
            WellFormed(r, d') && d'[r.start].named == [] && Home(r, d') == Recovered(r, d)
  {
    var ws := RecoverWrites(r, d);
    RecoveryCrashPoint(r, d, |ws|);
    assert ws[..|ws|] == ws;
  }

  // The machine crashes during boot once per element of crashes; the i-th
  // recovery got crashes[i] writes out, and the last recovery completes.
  ghost predicate CrashChain(r: Region, d: Disk, crashes: seq<nat>, final: Disk)
    requires WellFormed(r, d)
    decreases |crashes|
  {
    if crashes == [] then final == Apply(d, RecoverWrites(r, d))
    else
      && crashes[0] <= |RecoverWrites(r, d)|
      && (RecoveryCrashPoint(r, d, crashes[0]);
          CrashChain(r, Apply(d, RecoverWrites(r, d)[..crashes[0]]), crashes[1..], final))
  }

  // However often booting crashes, the file system ends up the same.
  lemma {:induction false} AnyCrashesRecover(r: Region, d: Disk, crashes: seq<nat>, final: Disk)
    requires WellFormed(r, d)
    requires CrashChain(r, d, crashes, final)
    ensures WellFormed(r, final) && final[r.start].named == [] && Home(r, final) == Recovered(r, d)
    decreases |crashes|
  {
    if crashes == [] {
      RecoveryCompletes(r, d);
    } else {
      RecoveryCrashPoint(r, d, crashes[0]);
      AnyCrashesRecover(r, Apply(d, RecoverWrites(r, d)[..crashes[0]]), crashes[1..], final);
    }
  }

  // --------------------------------------------------------------- commit

  ghost predicate SameHome(r: Region, d: Disk, d': Disk) {
    d'.Keys == d.Keys && forall b :: b in d && !InLog(r, b) ==> d'[b] == d[b]
  }

  lemma SameHomeRecovers(r: Region, d: Disk, d': Disk)
    requires WellFormed(r, d) && d[r.start].named == []
    requires SameHome(r, d, d') && d'[r.start] == d[r.start]
    ensures WellFormed(r, d') && Recovered(r, d') == Home(r, d) && Home(r, d') == Home(r, d)
  {
  }

  // write_log() touches nothing but the log blocks it fills.
  lemma PartialSave(r: Region, d: Disk, lh: seq<nat>, mem: map<nat, Block>, k: nat)
    requires LogBlocksExist(r, d) && |lh| <= LOGSIZE && k <= |lh|
    requires forall b :: b in lh ==> b in mem
    ensures var d' := Apply(d, SaveWrites(r, lh, mem)[..k]);
            && SameHome(r, d, d') && d'[r.start] == d[r.start]
            && forall i :: 0 <= i < k ==> d'[LogDataAt(r, i)] == mem[lh[i]]
  {
    var ws := SaveWrites(r, lh, mem)[..k];
    ApplyKeys(d, ws);
    forall b | b == r.start || (b in d && !InLog(r, b))
      ensures Apply(d, ws)[b] == d[b]
    {
      ApplyFrame(d, ws, b);
    }
    forall i | 0 <= i < k
      ensures Apply(d, ws)[LogDataAt(r, i)] == mem[lh[i]]
    {
      ApplyLast(d, ws, i);
    }
  }

  // The header goes on top of a filled log.
  lemma SavedBlocks(r: Region, d: Disk, lh: seq<nat>, mem: map<nat, Block>)
    requires Committable(r, d, lh, mem)
    ensures var d' := Saved(r, d, lh, mem);
            && SameHome(r, d, d')
            && d'[r.start] == HeadWrite(r, lh).content
            && forall i :: 0 <= i < |lh| ==> d'[LogDataAt(r, i)] == mem[lh[i]]
  {
    var ws := SaveWrites(r, lh, mem);
    assert ws[..|lh|] == ws;
    PartialSave(r, d, lh, mem, |lh|);
    ApplyAppend(d, ws, HeadWrite(r, lh));
  }

  lemma NewHeaderReadable(r: Region, d: Disk, lh: seq<nat>, d': Disk)
    requires WellFormed(r, d) && |lh| <= LOGSIZE && HomeBlocks(r, d, lh)
    requires SameHome(r, d, d') && d'[r.start] == HeadWrite(r, lh).content
    ensures WellFormed(r, d') && d'[r.start].named == lh
  {
  }

  // The header write is the commit point: from then on a crash recovers the
  // old home blocks overlaid with every block of the transaction.
  lemma HeaderCommits(r: Region, d: Disk, lh: seq<nat>, mem: map<nat, Block>, d': Disk)
    requires WellFormed(r, d) && |lh| <= LOGSIZE && HomeBlocks(r, d, lh)
    requires mem.Keys == set b | b in lh
    requires SameHome(r, d, d') && d'[r.start] == HeadWrite(r, lh).content
    requires forall i :: 0 <= i < |lh| ==> d'[LogDataAt(r, i)] == mem[lh[i]]
    ensures WellFormed(r, d') && Recovered(r, d') == Home(r, d) + mem
  {
    NewHeaderReadable(r, d, lh, d');
    forall b | b in d && !InLog(r, b)
      ensures Recovered(r, d')[b] == (Home(r, d) + mem)[b]
    {
      HeaderCommitsAt(r, d, lh, mem, d', b);
    }
  }

  lemma HeaderCommitsAt(r: Region, d: Disk, lh: seq<nat>, mem: map<nat, Block>, d': Disk, b: nat)
    requires WellFormed(r, d) && WellFormed(r, d') && |lh| <= LOGSIZE && HomeBlocks(r, d, lh)
    requires mem.Keys == set b | b in lh
    requires SameHome(r, d, d') && d'[r.start] == HeadWrite(r, lh).content
    requires forall i :: 0 <= i < |lh| ==> d'[LogDataAt(r, i)] == mem[lh[i]]
    requires b in d && !InLog(r, b)
    ensures b in Recovered(r, d') && b in Home(r, d) + mem && Recovered(r, d')[b] == (Home(r, d) + mem)[b]
  {
    assert LastSlot(lh, b) >= 0 <==> b in mem;
  }

  lemma SavedRecovers(r: Region, d: Disk, lh: seq<nat>, mem: map<nat, Block>)
    requires Committable(r, d, lh, mem)
    ensures var d' := Saved(r, d, lh, mem);
            WellFormed(r, d') && Recovered(r, d') == Home(r, d) + mem
  {
    SavedBlocks(r, d, lh, mem);
    HeaderCommits(r, d, lh, mem, Saved(r, d, lh, mem));
  }

  // From the header write on, commit() does what recovery would do.
  lemma CommitWritesSplit(r: Region, d: Disk, lh: seq<nat>, mem: map<nat, Block>)
    requires Committable(r, d, lh, mem) && lh != []
    ensures WellFormed(r, Saved(r, d, lh, mem))
    ensures CommitWrites(r, d, lh, mem) ==
      SaveWrites(r, lh, mem) + [HeadWrite(r, lh)] + RecoverWrites(r, Saved(r, d, lh, mem))
  {
    SavedBlocks(r, d, lh, mem);
    var d' := Saved(r, d, lh, mem);
    NewHeaderReadable(r, d, lh, d');
    assert InstallWrites(r, lh, d') == HomeWrites(lh, mem);
  }

  // commit() in two halves, with what the second half may rely on.
  lemma CommitPlan(r: Region, d: Disk, lh: seq<nat>, mem: map<nat, Block>)
    requires Committable(r, d, lh, mem) && lh != []
    ensures var saved := Saved(r, d, lh, mem);
            && LogBlocksExist(r, saved) && HomeBlocks(r, saved, lh)
            && (var first := SaveWrites(r, lh, mem) + [HeadWrite(r, lh)];
                var second := InstallWrites(r, lh, saved) + [HeadWrite(r, [])];
                CommitWrites(r, d, lh, mem) == first + second
                && Apply(d, CommitWrites(r, d, lh, mem)) == Apply(saved, second))
  {
    SavedBlocks(r, d, lh, mem);
    CommitWritesSplit(r, d, lh, mem);
    var saved := Saved(r, d, lh, mem);
    ApplyConcat(d, SaveWrites(r, lh, mem) + [HeadWrite(r, lh)], InstallWrites(r, lh, saved) + [HeadWrite(r, [])]);
  }

  // A crash after any k of commit()'s writes: the old file system before the
  // header write, the new one from the header write on, never a mixture.
  lemma CommitCrashPoint(r: Region, d: Disk, lh: seq<nat>, mem: map<nat, Block>, k: nat)
    requires Committable(r, d, lh, mem)
    requires k <= |CommitWrites(r, d, lh, mem)|
    ensures var d' := Apply(d, CommitWrites(r, d, lh, mem)[..k]);
            && WellFormed(r, d')
            && Recovered(r, d') == (if k <= |lh| then Home(r, d) else Home(r, d) + mem)
            && (k == |CommitWrites(r, d, lh, mem)| ==>
                  d'[r.start].named == [] && Home(r, d') == Home(r, d) + mem)
  {
    var ws := CommitWrites(r, d, lh, mem);
    if k <= |lh| {
      CommitEarly(r, d, lh, mem, k);
      assert lh == [] ==> mem == map[];
    } else {
      CommitLate(r, d, lh, mem, k);
    }
  }

  // A crash after any of the writes ws leaves a disk that recovers to the old home blocks, up
  // to the first commit writes, and to the old ones overlaid with mem from then on.
  ghost predicate AtomicWrites(r: Region, d: Disk, ws: seq<Write>, mem: map<nat, Block>, commit: nat)
    requires WellFormed(r, d)
  {
    forall k :: 0 <= k <= |ws| ==>
      && WellFormed(r, Crashed(d, ws, k))
      && Recovered(r, Crashed(d, ws, k)) == if k <= commit then Home(r, d) else Home(r, d) + mem
  }

  // What commit() promises about every crash point.
  ghost predicate CommitAtomic(r: Region, d: Disk, lh: seq<nat>, mem: map<nat, Block>)
    requires Committable(r, d, lh, mem)
  {
    AtomicWrites(r, d, CommitWrites(r, d, lh, mem), mem, |lh|)
  }

  lemma CommitIsAtomic(r: Region, d: Disk, lh: seq<nat>, mem: map<nat, Block>)
    requires Committable(r, d, lh, mem)
    ensures CommitAtomic(r, d, lh, mem)
  {
    forall k | 0 <= k <= |CommitWrites(r, d, lh, mem)| {
      CommitCrashPoint(r, d, lh, mem, k);
    }
  }

  lemma CommitCompletes(r: Region, d: Disk, lh: seq<nat>, mem: map<nat, Block>)
    requires Committable(r, d, lh, mem)
    ensures var d' := Apply(d, CommitWrites(r, d, lh, mem));
            WellFormed(r, d') && d'[r.start].named == [] && Home(r, d') == Home(r, d) + mem
  {
    var ws := CommitWrites(r, d, lh, mem);
    CommitCrashPoint(r, d, lh, mem, |ws|);
    assert ws[..|ws|] == ws;
  }

  lemma CommitEarly(r: Region, d: Disk, lh: seq<nat>, mem: map<nat, Block>, k: nat)
    requires Committable(r, d, lh, mem)
    requires k <= |lh|
    ensures var d' := Apply(d, CommitWrites(r, d, lh, mem)[..k]);
            && WellFormed(r, d') && d'[r.start].named == []
            && Recovered(r, d') == Home(r, d) && Home(r, d') == Home(r, d)
  {
    var d' := Apply(d, SaveWrites(r, lh, mem)[..k]);
    assert CommitWrites(r, d, lh, mem)[..k] == SaveWrites(r, lh, mem)[..k];
    PartialSave(r, d, lh, mem, k);
    SameHomeRecovers(r, d, d');
  }

  lemma CommitLate(r: Region, d: Disk, lh: seq<nat>, mem: map<nat, Block>, k: nat)
    requires Committable(r, d, lh, mem)
    requires |lh| < k <= |CommitWrites(r, d, lh, mem)|
    ensures var d' := Apply(d, CommitWrites(r, d, lh, mem)[..k]);
            && WellFormed(r, d') && Recovered(r, d') == Home(r, d) + mem
            && (k == |CommitWrites(r, d, lh, mem)| ==>
                  d'[r.start].named == [] && Home(r, d') == Home(r, d) + mem)
  {
    var save := SaveWrites(r, lh, mem) + [HeadWrite(r, lh)];
    var d1 := Saved(r, d, lh, mem);
    SavedRecovers(r, d, lh, mem);
    CommitWritesSplit(r, d, lh, mem);
    var install := RecoverWrites(r, d1);
    var j := k - |save|;
    assert CommitWrites(r, d, lh, mem)[..k] == save + install[..j];
    ApplyConcat(d, save, install[..j]);
    RecoveryCrashPoint(r, d1, j);
  }
}
