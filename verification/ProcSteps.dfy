// Every step of a CPU, a process or an interrupt handler keeps the process table's invariant.
module ProcSteps {
  import opened Common
  import opened ProcSpec
  import opened ProcProof
  import opened ProcWait

  ghost predicate RestOf(s: State) {
    Shape(s) && Rest(s.st, s.at, s.chan, s.parent, s.maker, s.lk)
  }

  // CPU c runs the thread of p.
  ghost predicate Thread(s: State, c: nat, p: nat) {
    Inv(s) && c < |s.cat| && s.cat[c] == InProc(p) && p < |s.st|
  }

  // What p's row says about a process that no CPU holds the lock of, or that sleeps, or that is dead.
  lemma RowFacts(s: State, k: nat)
    requires Core(s) && k < |s.st|
    ensures s.plock[k] == -1 ==> !s.at[k].Window? && !s.at[k].ExitZombie? && !s.at[k].Dying?
    ensures s.st[k] == SLEEPING ==> s.at[k].Asleep?
    ensures s.st[k] == ZOMBIE ==> s.at[k].ExitZombie? || s.at[k].Dying? || s.at[k].Dead?
    ensures s.st[k] == USED ==> s.at[k] == Dormant
    ensures s.st[k] == UNUSED && s.plock[k] == -1 ==> s.at[k].Dormant? || s.at[k].Dead?
  {
    assert ProcOk(s.st[k], s.at[k], s.where[k], s.plock[k]);
  }

  lemma SchedRest(s: State, c: nat, step: SchedStep)
    requires Inv(s) && c < |s.cat| && SchedNext(s, c, step).Some?
    ensures RestOf(SchedNext(s, c, step).value)
  {
    if step.Switch? {
      var p := s.cat[c].p;
      assert ProcOk(s.st[p], s.at[p], s.where[p], s.plock[p]);
      assert s.at[p := s.at[p]] == s.at;
      RestRow(s.st, s.at, s.chan, s.parent, s.maker, s.lk, p, RUNNING, s.at[p], s.chan);
    }
  }

  lemma ResumeRest(s: State, c: nat, p: nat)
    requires Thread(s, c, p) && SwitchNext(s, c, p, Resume).Some?
    ensures RestOf(SwitchNext(s, c, p, Resume).value)
  {
    Here(s, c, p);
    var a := s.at[p];
    NotHolder(s.at, s.lk, p);
    RestMove(s.st, s.at, s.chan, s.parent, s.maker, s.lk, p,
             if a.Forkret? then Run else if a.Yielded? then a.next else Reacquire(a.l),
             if a.Asleep? then s.chan[p := -1] else s.chan);
  }

  lemma YieldAcquireRest(s: State, c: nat, p: nat)
    requires Thread(s, c, p) && SwitchNext(s, c, p, YieldAcquire).Some?
    ensures RestOf(SwitchNext(s, c, p, YieldAcquire).value)
  {
    NotHolder(s.at, s.lk, p);
    RestMove(s.st, s.at, s.chan, s.parent, s.maker, s.lk, p, YieldHeld(s.at[p]), s.chan);
  }

  lemma YieldSwitchRest(s: State, c: nat, p: nat)
    requires Thread(s, c, p) && SwitchNext(s, c, p, YieldSwitch).Some?
    ensures RestOf(SwitchNext(s, c, p, YieldSwitch).value)
  {
    Here(s, c, p);
    RestRow(s.st, s.at, s.chan, s.parent, s.maker, s.lk, p, RUNNABLE, Yielded(s.at[p].next), s.chan);
  }

  lemma SleepSwitchRest(s: State, c: nat, p: nat)
    requires Thread(s, c, p) && SwitchNext(s, c, p, SleepSwitch).Some?
    ensures RestOf(SwitchNext(s, c, p, SleepSwitch).value)
  {
    Here(s, c, p);
    var a := s.at[p];
    RestRow(s.st, s.at, s.chan, s.parent, s.maker, s.lk, p, SLEEPING, Asleep(a.chan, a.l), s.chan[p := a.chan]);
  }

  lemma ExitSwitchRest(s: State, c: nat, p: nat)
    requires Thread(s, c, p) && SwitchNext(s, c, p, ExitSwitch).Some?
    ensures RestOf(SwitchNext(s, c, p, ExitSwitch).value)
  {
    Here(s, c, p);
    RestRow(s.st, s.at, s.chan, s.parent, s.maker, s.lk, p, s.st[p], Dead, s.chan);
  }

  lemma SwitchRest(s: State, c: nat, p: nat, step: SwitchStep)
    requires Thread(s, c, p) && SwitchNext(s, c, p, step).Some?
    ensures RestOf(SwitchNext(s, c, p, step).value)
  {
    match step
    case Resume => ResumeRest(s, c, p);
    case YieldAcquire => YieldAcquireRest(s, c, p);
    case YieldSwitch => YieldSwitchRest(s, c, p);
    case SleepSwitch => SleepSwitchRest(s, c, p);
    case ExitSwitch => ExitSwitchRest(s, c, p);
  }

  lemma LkAcquireRest(s: State, c: nat, p: nat, l: nat)
    requires Thread(s, c, p) && SleepNext(s, c, p, LkAcquire(l)).Some?
    ensures RestOf(SleepNext(s, c, p, LkAcquire(l)).value)
  {
    RestTake(s.st, s.at, s.chan, s.parent, s.maker, s.lk, p, Crit(l), l);
  }

  lemma LkReleaseRest(s: State, c: nat, p: nat)
    requires Thread(s, c, p) && SleepNext(s, c, p, LkRelease).Some?
    ensures RestOf(SleepNext(s, c, p, LkRelease).value)
  {
    RestDrop(s.st, s.at, s.chan, s.parent, s.maker, s.lk, p, Run, s.at[p].l);
  }

  lemma SleepAcquireRest(s: State, c: nat, p: nat, ch: int)
    requires Thread(s, c, p) && SleepNext(s, c, p, SleepAcquire(ch)).Some?
    ensures RestOf(SleepNext(s, c, p, SleepAcquire(ch)).value)
  {
    Here(s, c, p);
    NotHolder(s.at, s.lk, p);
    RestMove(s.st, s.at, s.chan, s.parent, s.maker, s.lk, p, SleepHeld(ch, s.at[p].l), s.chan);
  }

  lemma SleepReleaseRest(s: State, c: nat, p: nat)
    requires Thread(s, c, p) && SleepNext(s, c, p, SleepRelease).Some?
    ensures RestOf(SleepNext(s, c, p, SleepRelease).value)
  {
    RestDoze(s.st, s.at, s.chan, s.parent, s.maker, s.lk, p, s.at[p].chan, s.at[p].l);
  }

  lemma ReacquiredRest(s: State, c: nat, p: nat)
    requires Thread(s, c, p) && SleepNext(s, c, p, Reacquired).Some?
    ensures RestOf(SleepNext(s, c, p, Reacquired).value)
  {
    var l := s.at[p].l;
    RestTake(s.st, s.at, s.chan, s.parent, s.maker, s.lk, p, if l == WAIT_LOCK then WaitScan(0, false) else Crit(l), l);
  }

  lemma SleepRest(s: State, c: nat, p: nat, step: SleepStep)
    requires Thread(s, c, p) && SleepNext(s, c, p, step).Some?
    ensures RestOf(SleepNext(s, c, p, step).value)
  {
    match step
    case LkAcquire(l) => LkAcquireRest(s, c, p, l);
    case LkRelease => LkReleaseRest(s, c, p);
    case SleepAcquire(ch) => SleepAcquireRest(s, c, p, ch);
    case SleepRelease => SleepReleaseRest(s, c, p);
    case Reacquired => ReacquiredRest(s, c, p);
  }

  lemma WakeBeginRest(s: State, c: nat, p: nat, ch: int)
    requires Thread(s, c, p) && WakeNext(s, c, p, WakeBegin(ch)).Some?
    ensures RestOf(WakeNext(s, c, p, WakeBegin(ch)).value)
  {
    Here(s, c, p);
    NotHolder(s.at, s.lk, p);
    RestMove(s.st, s.at, s.chan, s.parent, s.maker, s.lk, p, Waking(ch, s.at[p].l, 0), s.chan);
  }

  lemma WakeOneRest(s: State, c: nat, p: nat)
    requires Thread(s, c, p) && WakeNext(s, c, p, WakeOne).Some?
    ensures RestOf(WakeNext(s, c, p, WakeOne).value)
  {
    Here(s, c, p);
    var a := s.at[p];
    NotHolder(s.at, s.lk, p);
    RowFacts(s, a.k);
    WakePast(s.st, s.at, s.chan, s.parent, s.maker, s.lk, p, a.chan, a.l, a.k);
  }

  // The round of wakeup() for process k, which p skips if it is itself.
  lemma WakePast(st: seq<PState>, at: seq<At>, chan: seq<int>, parent: seq<int>, maker: seq<int>, lk: seq<int>, p: nat,
      ch: int, l: nat, k: nat)
    requires Rest(st, at, chan, parent, maker, lk) && p < |st| && k < |st| && at[p] == Waking(ch, l, k)
    requires lk[WAIT_LOCK] != p
    requires !at[k].Window? && (st[k] == SLEEPING ==> at[k].Asleep?)
    ensures Rest(if k == p then st else st[k := WakeState(st[k], chan[k], ch)], at[p := Waking(ch, l, k + 1)],
                 chan, parent, maker, lk)
  {
    assert Passed(st, at, at[p]);
    if k == p {
      RestMove(st, at, chan, parent, maker, lk, p, Waking(ch, l, k + 1), chan);
    } else {
      RestWoken(st, at, chan, parent, maker, lk, k, ch);
      PassedOne(st, at, chan, ch, l, k);
      RestMove(st[k := WakeState(st[k], chan[k], ch)], at, chan, parent, maker, lk, p, Waking(ch, l, k + 1), chan);
    }
  }

  lemma WakeEndRest(s: State, c: nat, p: nat)
    requires Thread(s, c, p) && WakeNext(s, c, p, WakeEnd).Some?
    ensures RestOf(WakeNext(s, c, p, WakeEnd).value)
  {
    Here(s, c, p);
    NotHolder(s.at, s.lk, p);
    RestMove(s.st, s.at, s.chan, s.parent, s.maker, s.lk, p, Crit(s.at[p].l), s.chan);
  }

  lemma WakeRest(s: State, c: nat, p: nat, step: WakeStep)
    requires Thread(s, c, p) && WakeNext(s, c, p, step).Some?
    ensures RestOf(WakeNext(s, c, p, step).value)
  {
    match step
    case WakeBegin(ch) => WakeBeginRest(s, c, p, ch);
    case WakeOne => WakeOneRest(s, c, p);
    case WakeEnd => WakeEndRest(s, c, p);
  }

  lemma WaitBeginRest(s: State, c: nat, p: nat)
    requires Thread(s, c, p) && WaitNext(s, c, p, WaitBegin).Some?
    ensures RestOf(WaitNext(s, c, p, WaitBegin).value)
  {
    RestTake(s.st, s.at, s.chan, s.parent, s.maker, s.lk, p, WaitScan(0, false), WAIT_LOCK);
  }

  lemma WaitReapRest(s: State, c: nat, p: nat, fault: bool)
    requires Thread(s, c, p) && WaitNext(s, c, p, WaitChild(fault)).Some?
    requires s.parent[s.at[p].k] == p && s.st[s.at[p].k] == ZOMBIE
    ensures RestOf(WaitNext(s, c, p, WaitChild(fault)).value)
  {
    var k := s.at[p].k;
    if fault {
      RestDrop(s.st, s.at, s.chan, s.parent, s.maker, s.lk, p, Run, WAIT_LOCK);
    } else {
      RowFacts(s, k);
      RestFreed(s.st, s.at, s.chan, s.parent, s.maker, s.lk, k);
      RestDrop(s.st[k := UNUSED], s.at, s.chan[k := -1], s.parent[k := -1], s.maker, s.lk, p, Run, WAIT_LOCK);
    }
  }

  lemma WaitChildRest(s: State, c: nat, p: nat, fault: bool)
    requires Thread(s, c, p) && WaitNext(s, c, p, WaitChild(fault)).Some?
    ensures RestOf(WaitNext(s, c, p, WaitChild(fault)).value)
  {
    var a := s.at[p];
    if s.parent[a.k] == p && s.st[a.k] == ZOMBIE {
      WaitReapRest(s, c, p, fault);
    } else {
      ScanPast(s.st, s.at, s.chan, s.parent, s.maker, s.lk, p, a.k, a.have || s.parent[a.k] == p);
    }
  }

  lemma ScanPast(st: seq<PState>, at: seq<At>, chan: seq<int>, parent: seq<int>, maker: seq<int>, lk: seq<int>, p: nat,
      k: nat, have: bool)
    requires Rest(st, at, chan, parent, maker, lk) && p < |st| && k < |st| && at[p].WaitScan? && at[p].k == k
    requires parent[k] == p ==> st[k] != ZOMBIE
    ensures Rest(st, at[p := WaitScan(k + 1, have)], chan, parent, maker, lk)
  {
    assert HeldBy(p, LkOf(at[p]), lk);
    ScanOn(st, at, parent, p, k, have);
    RestMove(st, at, chan, parent, maker, lk, p, WaitScan(k + 1, have), chan);
  }

  lemma ScanSleep(st: seq<PState>, at: seq<At>, chan: seq<int>, parent: seq<int>, maker: seq<int>, lk: seq<int>, p: nat)
    requires Rest(st, at, chan, parent, maker, lk) && p < |st| && at[p].WaitScan? && at[p].k == |st|
    ensures Rest(st, at[p := SleepHeld(p, WAIT_LOCK)], chan, parent, maker, lk)
  {
    assert HeldBy(p, LkOf(at[p]), lk);
    RestMove(st, at, chan, parent, maker, lk, p, SleepHeld(p, WAIT_LOCK), chan);
  }

  lemma ScanOn(st: seq<PState>, at: seq<At>, parent: seq<int>, p: nat, k: nat, have: bool)
    requires |st| == |at| == |parent| && p < |st| && k < |st| && at[p].WaitScan? && at[p].k == k
    requires HolderInv(st, at, parent, p) && (parent[k] == p ==> st[k] != ZOMBIE)
    ensures HolderInv(st, at[p := WaitScan(k + 1, have)], parent, p)
  {
  }

  lemma WaitLeaveRest(s: State, c: nat, p: nat)
    requires Thread(s, c, p) && WaitNext(s, c, p, WaitLeave).Some?
    ensures RestOf(WaitNext(s, c, p, WaitLeave).value)
  {
    RestDrop(s.st, s.at, s.chan, s.parent, s.maker, s.lk, p, Run, WAIT_LOCK);
  }

  lemma WaitSleepRest(s: State, c: nat, p: nat)
    requires Thread(s, c, p) && WaitNext(s, c, p, WaitSleep).Some?
    ensures RestOf(WaitNext(s, c, p, WaitSleep).value)
  {
    ScanSleep(s.st, s.at, s.chan, s.parent, s.maker, s.lk, p);
  }

  lemma WaitNoblockRest(s: State, c: nat, p: nat, k: nat)
    requires Thread(s, c, p) && WaitNext(s, c, p, WaitNoblock(k)).Some?
    ensures RestOf(WaitNext(s, c, p, WaitNoblock(k)).value)
  {
    RowFacts(s, k);
    RestFreed(s.st, s.at, s.chan, s.parent, s.maker, s.lk, k);
  }

  lemma WaitRest(s: State, c: nat, p: nat, step: WaitStep)
    requires Thread(s, c, p) && WaitNext(s, c, p, step).Some?
    ensures RestOf(WaitNext(s, c, p, step).value)
  {
    match step
    case WaitBegin => WaitBeginRest(s, c, p);
    case WaitChild(fault) => WaitChildRest(s, c, p, fault);
    case WaitLeave => WaitLeaveRest(s, c, p);
    case WaitSleep => WaitSleepRest(s, c, p);
    case WaitNoblock(k) => WaitNoblockRest(s, c, p, k);
  }

  lemma ReparentOneRest(s: State, c: nat, p: nat)
    requires Thread(s, c, p) && ReparentNext(s, c, p, ReparentOne).Some?
    ensures RestOf(ReparentNext(s, c, p, ReparentOne).value)
  {
    var k := s.at[p].k;
    if s.parent[k] != p {
      ReparentPast(s.st, s.at, s.chan, s.parent, s.maker, s.lk, p, k);
    } else {
      Adopt(s.st, s.at, s.chan, s.parent, s.maker, s.lk, p, k);
    }
  }

  lemma ReparentWakeOneRest(s: State, c: nat, p: nat)
    requires Thread(s, c, p) && ReparentNext(s, c, p, ReparentWakeOne).Some?
    ensures RestOf(ReparentNext(s, c, p, ReparentWakeOne).value)
  {
    var a := s.at[p];
    ReparentWakePast(s, p, a.k, a.j);
  }

  lemma ReparentPast(st: seq<PState>, at: seq<At>, chan: seq<int>, parent: seq<int>, maker: seq<int>, lk: seq<int>,
      p: nat, k: nat)
    requires Rest(st, at, chan, parent, maker, lk) && p < |st| && at[p] == Reparent(k)
    ensures Rest(st, at[p := Reparent(k + 1)], chan, parent, maker, lk)
  {
    RestMove(st, at, chan, parent, maker, lk, p, Reparent(k + 1), chan);
  }

  lemma Adopt(st: seq<PState>, at: seq<At>, chan: seq<int>, parent: seq<int>, maker: seq<int>, lk: seq<int>, p: nat,
      k: nat)
    requires Rest(st, at, chan, parent, maker, lk) && p < |st| && k < |st| && at[p] == Reparent(k)
    ensures Rest(st, at[p := ReparentWake(k, 0)], chan, parent[k := INIT], maker, lk)
  {
    assert HeldBy(p, LkOf(at[p]), lk);
    WaitAdopt(st, at, parent, lk, p, k);
    RestInExit(st, at, chan, parent, maker, lk, p, ReparentWake(k, 0), parent[k := INIT]);
  }

  lemma ReparentDone(st: seq<PState>, at: seq<At>, chan: seq<int>, parent: seq<int>, maker: seq<int>, lk: seq<int>,
      p: nat, k: nat, j: nat)
    requires Rest(st, at, chan, parent, maker, lk) && p < |st| && at[p] == ReparentWake(k, j) && j > INIT
    ensures Rest(st, at[p := Reparent(k + 1)], chan, parent, maker, lk)
  {
    assert HeldBy(p, LkOf(at[p]), lk);
    WaitFinish(st, at, parent, lk, p, k, j);
    RestInExit(st, at, chan, parent, maker, lk, p, Reparent(k + 1), parent);
  }

  lemma ReparentWakePast(s: State, p: nat, k: nat, j: nat)
    requires Inv(s) && p < |s.st| && j < |s.st| && (j == p || s.plock[j] == -1) && s.at[p] == ReparentWake(k, j)
    ensures RestOf(Move(Woken(s, p, j, INIT), p, ReparentWake(k, j + 1)))
  {
    RowFacts(s, j);
    InitWoken(s.st, s.at, s.chan, s.parent, s.maker, s.lk, p, k, j);
  }

  lemma InitWoken(st: seq<PState>, at: seq<At>, chan: seq<int>, parent: seq<int>, maker: seq<int>, lk: seq<int>,
      p: nat, k: nat, j: nat)
    requires Rest(st, at, chan, parent, maker, lk) && p < |st| && j < |st| && at[p] == ReparentWake(k, j)
    requires !at[j].Window? && (st[j] == SLEEPING ==> at[j].Asleep?)
    ensures Rest(if j == p then st else st[j := WakeState(st[j], chan[j], INIT)], at[p := ReparentWake(k, j + 1)],
                 chan, parent, maker, lk)
  {
    assert HeldBy(p, LkOf(at[p]), lk);
    var st' := if j == p then st else st[j := WakeState(st[j], chan[j], INIT)];
    if j != p {
      RestWoken(st, at, chan, parent, maker, lk, j, INIT);
      if j == INIT {
        AwakeOne(st, at, chan, j);
      }
    }
    WaitAdvance(st', at, parent, lk, p, k, j);
    RestInExit(st', at, chan, parent, maker, lk, p, ReparentWake(k, j + 1), parent);
  }

  lemma ReparentWakeEndRest(s: State, c: nat, p: nat)
    requires Thread(s, c, p) && ReparentNext(s, c, p, ReparentWakeEnd).Some?
    ensures RestOf(ReparentNext(s, c, p, ReparentWakeEnd).value)
  {
    ReparentDone(s.st, s.at, s.chan, s.parent, s.maker, s.lk, p, s.at[p].k, s.at[p].j);
  }

  lemma ReparentEndRest(s: State, c: nat, p: nat)
    requires Thread(s, c, p) && ReparentNext(s, c, p, ReparentEnd).Some?
    ensures RestOf(ReparentNext(s, c, p, ReparentEnd).value)
  {
    RestMove(s.st, s.at, s.chan, s.parent, s.maker, s.lk, p, ExitWake(0), s.chan);
  }

  lemma ReparentRest(s: State, c: nat, p: nat, step: ReparentStep)
    requires Thread(s, c, p) && ReparentNext(s, c, p, step).Some?
    ensures RestOf(ReparentNext(s, c, p, step).value)
  {
    match step
    case ReparentOne => ReparentOneRest(s, c, p);
    case ReparentWakeOne => ReparentWakeOneRest(s, c, p);
    case ReparentWakeEnd => ReparentWakeEndRest(s, c, p);
    case ReparentEnd => ReparentEndRest(s, c, p);
  }

  lemma ExitBeginRest(s: State, c: nat, p: nat)
    requires Thread(s, c, p) && ExitNext(s, c, p, ExitBegin).Some?
    ensures RestOf(ExitNext(s, c, p, ExitBegin).value)
  {
    RestTake(s.st, s.at, s.chan, s.parent, s.maker, s.lk, p, Reparent(0), WAIT_LOCK);
  }

  lemma ExitWakeOneRest(s: State, c: nat, p: nat)
    requires Thread(s, c, p) && ExitNext(s, c, p, ExitWakeOne).Some?
    ensures RestOf(ExitNext(s, c, p, ExitWakeOne).value)
  {
    var a := s.at[p];
    ExitWakePast(s, p, a.j);
  }

  lemma ExitTaken(st: seq<PState>, at: seq<At>, chan: seq<int>, parent: seq<int>, maker: seq<int>, lk: seq<int>, p: nat)
    requires Rest(st, at, chan, parent, maker, lk) && p < |st| && at[p] == ExitWake(|st|)
    ensures Rest(st, at[p := ExitHeld], chan, parent, maker, lk)
  {
    assert HeldBy(p, LkOf(at[p]), lk);
    RestMove(st, at, chan, parent, maker, lk, p, ExitHeld, chan);
  }

  lemma ExitWakePast(s: State, p: nat, j: nat)
    requires Inv(s) && p < |s.st| && j < |s.st| && (j == p || s.plock[j] == -1) && s.at[p] == ExitWake(j)
    ensures RestOf(Move(Woken(s, p, j, s.parent[p]), p, ExitWake(j + 1)))
  {
    RowFacts(s, j);
    ParentWoken(s.st, s.at, s.chan, s.parent, s.maker, s.lk, p, j);
  }

  lemma ParentWoken(st: seq<PState>, at: seq<At>, chan: seq<int>, parent: seq<int>, maker: seq<int>, lk: seq<int>,
      p: nat, j: nat)
    requires Rest(st, at, chan, parent, maker, lk) && p < |st| && j < |st| && at[p] == ExitWake(j)
    requires !at[j].Window? && (st[j] == SLEEPING ==> at[j].Asleep?)
    ensures Rest(if j == p then st else st[j := WakeState(st[j], chan[j], parent[p])], at[p := ExitWake(j + 1)],
                 chan, parent, maker, lk)
  {
    assert HeldBy(p, LkOf(at[p]), lk);
    var st' := if j == p then st else st[j := WakeState(st[j], chan[j], parent[p])];
    if j != p {
      RestWoken(st, at, chan, parent, maker, lk, j, parent[p]);
      if j == parent[p] {
        AwakeOne(st, at, chan, j);
      }
    }
    assert HolderInv(st', at, parent, p);
    RestMove(st', at, chan, parent, maker, lk, p, ExitWake(j + 1), chan);
  }

  lemma ExitLockRest(s: State, c: nat, p: nat)
    requires Thread(s, c, p) && ExitNext(s, c, p, ExitLock).Some?
    ensures RestOf(ExitNext(s, c, p, ExitLock).value)
  {
    ExitTaken(s.st, s.at, s.chan, s.parent, s.maker, s.lk, p);
  }

  lemma ExitMarkRest(s: State, c: nat, p: nat)
    requires Thread(s, c, p) && ExitNext(s, c, p, ExitMark).Some?
    ensures RestOf(ExitNext(s, c, p, ExitMark).value)
  {
    Here(s, c, p);
    RestZombie(s.st, s.at, s.chan, s.parent, s.maker, s.lk, p);
  }

  lemma ExitReleaseRest(s: State, c: nat, p: nat)
    requires Thread(s, c, p) && ExitNext(s, c, p, ExitRelease).Some?
    ensures RestOf(ExitNext(s, c, p, ExitRelease).value)
  {
    RestDrop(s.st, s.at, s.chan, s.parent, s.maker, s.lk, p, Dying, WAIT_LOCK);
  }

  lemma ExitRest(s: State, c: nat, p: nat, step: ExitStep)
    requires Thread(s, c, p) && ExitNext(s, c, p, step).Some?
    ensures RestOf(ExitNext(s, c, p, step).value)
  {
    match step
    case ExitBegin => ExitBeginRest(s, c, p);
    case ExitWakeOne => ExitWakeOneRest(s, c, p);
    case ExitLock => ExitLockRest(s, c, p);
    case ExitMark => ExitMarkRest(s, c, p);
    case ExitRelease => ExitReleaseRest(s, c, p);
  }

  lemma ForkAllocRest(s: State, c: nat, p: nat, k: nat)
    requires Thread(s, c, p) && ForkNext(s, c, p, ForkAlloc(k)).Some?
    ensures RestOf(ForkNext(s, c, p, ForkAlloc(k)).value)
  {
    RowFacts(s, k);
    RestAlloc(s.st, s.at, s.chan, s.parent, s.maker, s.lk, p, k);
  }

  lemma ForkFailRest(s: State, c: nat, p: nat)
    requires Thread(s, c, p) && ForkNext(s, c, p, ForkFail).Some?
    ensures RestOf(ForkNext(s, c, p, ForkFail).value)
  {
    var k := s.at[p].child;
    assert MakerOk(s.st, s.at, s.maker, p);
    RowFacts(s, k);
    RestGiveUp(s.st, s.at, s.chan, s.parent, s.maker, s.lk, p, k);
  }

  lemma ForkParentRest(s: State, c: nat, p: nat)
    requires Thread(s, c, p) && ForkNext(s, c, p, ForkParent).Some?
    ensures RestOf(ForkNext(s, c, p, ForkParent).value)
  {
    RestParent(s.st, s.at, s.chan, s.parent, s.maker, s.lk, p, s.at[p].child);
  }

  lemma ForkStartRest(s: State, c: nat, p: nat)
    requires Thread(s, c, p) && ForkNext(s, c, p, ForkStart).Some?
    ensures RestOf(ForkNext(s, c, p, ForkStart).value)
  {
    var k := s.at[p].child;
    assert MakerOk(s.st, s.at, s.maker, p);
    RowFacts(s, k);
    RestChild(s.st, s.at, s.chan, s.parent, s.maker, s.lk, p, k, RUNNABLE, Forkret);
  }

  lemma ForkRest(s: State, c: nat, p: nat, step: ForkStep)
    requires Thread(s, c, p) && ForkNext(s, c, p, step).Some?
    ensures RestOf(ForkNext(s, c, p, step).value)
  {
    match step
    case ForkAlloc(k) => ForkAllocRest(s, c, p, k);
    case ForkFail => ForkFailRest(s, c, p);
    case ForkParent => ForkParentRest(s, c, p);
    case ForkStart => ForkStartRest(s, c, p);
  }

  lemma ThreadStep(s: State, step: Step, c: nat)
    requires Inv(s) && Next(s, step).Some? && !step.Sched? && !step.Interrupt? && !step.Rouse? && step.c == c
    ensures Inv(Next(s, step).value)
  {
    var p := s.cat[c].p;
    match step
    case Swtch(_, x) => SwitchCore(s, c, p, x); SwitchRest(s, c, p, x);
    case Sleeping(_, x) => SleepCore(s, c, p, x); SleepRest(s, c, p, x);
    case Wakeup(_, x) => WakeCore(s, c, p, x); WakeRest(s, c, p, x);
    case Waiting(_, x) => WaitCore(s, c, p, x); WaitRest(s, c, p, x);
    case Forking(_, x) =>
      assert MakerOk(s.st, s.at, s.maker, p);
      ForkCore(s, c, p, x); ForkRest(s, c, p, x);
    case Reparenting(_, x) => ReparentCore(s, c, p, x); ReparentRest(s, c, p, x);
    case Exiting(_, x) => ExitCore(s, c, p, x); ExitRest(s, c, p, x);
  }

  lemma RouseInv(s: State, k: nat, target: int)
    requires Inv(s) && k < |s.st| && s.plock[k] == -1
    ensures Inv(s.(st := s.st[k := WakeState(s.st[k], s.chan[k], target)]))
  {
    RowFacts(s, k);
    assert ProcOk(s.st[k], s.at[k], s.where[k], s.plock[k]);
    SetState(s.st, s.at, s.where, s.plock, s.cat, s.cproc, k, WakeState(s.st[k], s.chan[k], target));
    RestWoken(s.st, s.at, s.chan, s.parent, s.maker, s.lk, k, target);
  }

  // ---------------------------------------------------- interrupt handlers

  // The handler on CPU c: it interrupted something that holds no lock, it holds the lock
  // it says it holds, and its wakeup() has passed nobody who still sleeps.
  ghost predicate HandlerOk(s: State, c: nat)
    requires Shape(s) && c < |s.cat|
  {
    var h := s.irq[c];
    && (!h.Off? ==> Interruptible(s, c))
    && (h.Holds? || h.Scans? ==> 1 <= h.l < |s.lk| && s.lk[h.l] == Handle(c))
    && (h.Scans? ==> h.k <= |s.st| && forall p :: 0 <= p < h.k ==> !Dozing(s.st[p], s.at[p], h.chan, h.l))
  }

  // A handler takes or gives back a lock that no process holds.
  lemma HandlerLock(s: State, l: nat, v: int)
    requires Inv(s) && 1 <= l < |s.lk| && s.lk[l] < 0 && v < 0
    ensures Inv(s.(lk := s.lk[l := v]))
  {
    var lk' := s.lk[l := v];
    forall p | 0 <= p < |s.at| ensures HeldBy(p, LkOf(s.at[p]), lk') {
      assert HeldBy(p, LkOf(s.at[p]), s.lk);
    }
    forall m | 0 <= m < |s.lk| ensures HolderOk(m, lk'[m], s.at) {
      assert HolderOk(m, s.lk[m], s.at);
    }
    OtherLock(s.st, s.at, s.parent, s.lk, l, v);
  }

  lemma HandlerStep(s: State, c: nat, x: IrqStep)
    requires Inv(s) && c < |s.cat| && HandlerOk(s, c) && IrqNext(s, c, x).Some?
    ensures Inv(IrqNext(s, c, x).value)
  {
    var h := s.irq[c];
    match x
    case IrqAcquire(l) => HandlerLock(s, l, Handle(c));
    case IrqRelease => HandlerLock(s, h.l, -1);
    case IrqOne =>
      if h.k != s.cproc[c] {
        RouseInv(s, h.k, h.chan);
      }
    case _ =>
  }
}
