// Every step keeps the process table consistent: one CPU per kernel stack,
// and nobody asleep in wait() with a dead child once wait_lock is free.
module ProcProof {
  import opened Common
  import opened ProcSpec

  // ---------------------------------------------------------- one process

  // The thread holds its own p->lock here.
  predicate HoldsOwn(a: At) {
    a.Forkret? || a.Yielded? || a.Asleep? || a.YieldHeld? || a.SleepHeld? || a.Window?
    || a.ExitHeld? || a.ExitZombie? || a.Dying?
  }

  // State, position, CPU and lock of one process fit together.
  predicate ProcOk(st: PState, a: At, w: int, pl: int) {
    && w >= -1 && pl >= -1
    && (w >= 0 ==>
          && !a.Dormant? && !a.Dead?
          && (pl == w <==> HoldsOwn(a))
          && (if a.ExitZombie? || a.Dying? then st == ZOMBIE || st == UNUSED else st == RUNNING))
    && (w == -1 ==>
          match a
          case Dormant => st == UNUSED || st == USED
          case Forkret => st == RUNNABLE
          case Yielded(_) => st == RUNNABLE
          case Asleep(_, _) => st == SLEEPING || st == RUNNABLE
          case Dead => st == ZOMBIE || st == UNUSED
          case _ => false)
    && NestOk(a)
  }

  // A process yields only where it holds no lock, and wait_lock is for wait(), fork() and exit().
  predicate NestOk(a: At) {
    && ((a.YieldHeld? || a.Yielded?) ==> Preemptible(a.next))
    && ((a.Crit? || a.Waking?) ==> a.l != WAIT_LOCK)
  }

  ghost predicate ProcInv(st: seq<PState>, at: seq<At>, where: seq<int>, plock: seq<int>) {
    |st| == |at| == |where| == |plock| && forall p {:trigger ProcOk(st[p], at[p], where[p], plock[p])} ::
      0 <= p < |st| ==> ProcOk(st[p], at[p], where[p], plock[p])
  }

  // -------------------------------------------------------------- the CPUs

  predicate SchedHolds(a: CpuAt, p: nat) {
    a == Look(p) || a == Back(p) || a == Cleared(p)
  }

  ghost predicate CpuOk(a: CpuAt, proc: int, c: nat, where: seq<int>, plock: seq<int>)
    requires |where| == |plock|
  {
    match a
    case Idle => proc == -1
    case InProc(p) => p < |where| && proc == p && where[p] == c
    case Look(p) => p < |where| && proc == -1 && plock[p] == c
    case Back(p) => p < |where| && proc == p && where[p] == -1 && plock[p] == c
    case Cleared(p) => p < |where| && proc == -1 && where[p] == -1 && plock[p] == c
  }

  ghost predicate CpuInv(cat: seq<CpuAt>, cproc: seq<int>, where: seq<int>, plock: seq<int>) {
    && |cat| == |cproc| && |where| == |plock|
    && (forall c {:trigger CpuOk(cat[c], cproc[c], c, where, plock)} ::
          0 <= c < |cat| ==> CpuOk(cat[c], cproc[c], c, where, plock))
    && (forall p {:trigger LinkOk(p, where[p], plock[p], cat)} :: 0 <= p < |where| ==> LinkOk(p, where[p], plock[p], cat))
  }

  ghost predicate LinkOk(p: nat, w: int, pl: int, cat: seq<CpuAt>) {
    && (w >= 0 ==> w < |cat| && cat[w] == InProc(p))
    && (pl >= 0 && pl != w ==> pl < |cat| && SchedHolds(cat[pl], p))
  }

  // --------------------------------------------------------- steps of a CPU

  ghost predicate Table(st: seq<PState>, at: seq<At>, where: seq<int>, plock: seq<int>, cat: seq<CpuAt>,
      cproc: seq<int>) {
    ProcInv(st, at, where, plock) && CpuInv(cat, cproc, where, plock)
  }

  ghost predicate Core(s: State) {
    Shape(s) && Table(s.st, s.at, s.where, s.plock, s.cat, s.cproc)
  }

  // p moves on to a, on the CPU it is on.
  lemma SetAt(st: seq<PState>, at: seq<At>, where: seq<int>, plock: seq<int>, cat: seq<CpuAt>, cproc: seq<int>, p: nat,
      a: At)
    requires Table(st, at, where, plock, cat, cproc) && p < |st| && ProcOk(st[p], a, where[p], plock[p])
    ensures Table(st, at[p := a], where, plock, cat, cproc)
  {
  }

  lemma SetState(st: seq<PState>, at: seq<At>, where: seq<int>, plock: seq<int>, cat: seq<CpuAt>, cproc: seq<int>,
      p: nat, x: PState)
    requires Table(st, at, where, plock, cat, cproc) && p < |st| && ProcOk(x, at[p], where[p], plock[p])
    ensures Table(st[p := x], at, where, plock, cat, cproc)
  {
  }

  lemma SetBoth(st: seq<PState>, at: seq<At>, where: seq<int>, plock: seq<int>, cat: seq<CpuAt>, cproc: seq<int>,
      p: nat, x: PState, a: At)
    requires Table(st, at, where, plock, cat, cproc) && p < |st| && ProcOk(x, a, where[p], plock[p])
    ensures Table(st[p := x], at[p := a], where, plock, cat, cproc)
  {
  }

  // p moves on to a and takes or drops its own lock.
  lemma SetLock(st: seq<PState>, at: seq<At>, where: seq<int>, plock: seq<int>, cat: seq<CpuAt>, cproc: seq<int>,
      p: nat, a: At, v: int)
    requires Table(st, at, where, plock, cat, cproc) && p < |st| && where[p] >= 0 && ProcOk(st[p], a, where[p], v)
    requires plock[p] in {-1, where[p]} && v in {-1, where[p]}
    ensures Table(st, at[p := a], where, plock[p := v], cat, cproc)
  {
    assert LinkOk(p, where[p], plock[p], cat);
    forall c | 0 <= c < |cat| ensures CpuOk(cat[c], cproc[c], c, where, plock[p := v]) {
      CpuIs(cat, cproc, where, plock, c);
    }
    forall q | 0 <= q < |where| ensures LinkOk(q, where[q], plock[p := v][q], cat) {
      assert LinkOk(q, where[q], plock[q], cat);
    }
  }

  // The thread of p, which CPU c runs.
  lemma Here(s: State, c: nat, p: nat)
    requires Core(s) && c < |s.cat| && s.cat[c] == InProc(p)
    ensures p < |s.st| && s.where[p] == c && ProcOk(s.st[p], s.at[p], c, s.plock[p])
  {
    assert CpuOk(s.cat[c], s.cproc[c], c, s.where, s.plock);
  }

  lemma MoveCore(s: State, p: nat, a: At)
    requires Core(s) && p < |s.st| && ProcOk(s.st[p], a, s.where[p], s.plock[p])
    ensures Table(s.st, s.at[p := a], s.where, s.plock, s.cat, s.cproc)
  {
    SetAt(s.st, s.at, s.where, s.plock, s.cat, s.cproc, p, a);
  }

  lemma MovePCore(s: State, p: nat, a: At, v: int)
    requires Core(s) && p < |s.st| && s.where[p] >= 0 && ProcOk(s.st[p], a, s.where[p], v)
    requires s.plock[p] in {-1, s.where[p]} && v in {-1, s.where[p]}
    ensures Table(s.st, s.at[p := a], s.where, s.plock[p := v], s.cat, s.cproc)
  {
    SetLock(s.st, s.at, s.where, s.plock, s.cat, s.cproc, p, a, v);
  }

  // The row of k changes and p moves on.
  lemma SetTwo(st: seq<PState>, at: seq<At>, where: seq<int>, plock: seq<int>, cat: seq<CpuAt>, cproc: seq<int>,
      k: nat, x: PState, b: At, p: nat, a: At)
    requires Table(st, at, where, plock, cat, cproc) && p < |st| && k < |st| && p != k
    requires ProcOk(x, b, where[k], plock[k]) && ProcOk(st[p], a, where[p], plock[p])
    ensures Table(st[k := x], at[k := b][p := a], where, plock, cat, cproc)
  {
    SetBoth(st, at, where, plock, cat, cproc, k, x, b);
    SetAt(st[k := x], at[k := b], where, plock, cat, cproc, p, a);
  }

  // One round of wakeup(target) by p.
  lemma WokenCore(s: State, p: nat, k: nat, target: int, a: At)
    requires Core(s) && p < |s.st| && k < |s.st| && (k == p || s.plock[k] == -1)
    requires ProcOk(s.st[p], a, s.where[p], s.plock[p])
    ensures Core(Move(Woken(s, p, k, target), p, a))
  {
    if k == p {
      MoveCore(s, p, a);
    } else {
      assert ProcOk(s.st[k], s.at[k], s.where[k], s.plock[k]);
      assert s.at[k := s.at[k]] == s.at;
      SetTwo(s.st, s.at, s.where, s.plock, s.cat, s.cproc, k, WakeState(s.st[k], s.chan[k], target), s.at[k], p, a);
    }
  }

  lemma FreedCore(s: State, k: nat)
    requires Core(s) && k < |s.st| && (s.st[k] == ZOMBIE || s.st[k] == USED)
    ensures Core(Freed(s, k))
  {
    assert ProcOk(s.st[k], s.at[k], s.where[k], s.plock[k]);
    SetState(s.st, s.at, s.where, s.plock, s.cat, s.cproc, k, UNUSED);
  }

  lemma SleepCore(s: State, c: nat, p: nat, step: SleepStep)
    requires Core(s) && c < |s.cat| && s.cat[c] == InProc(p) && p < |s.st| && SleepNext(s, c, p, step).Some?
    ensures Core(SleepNext(s, c, p, step).value)
  {
    Here(s, c, p);
    var a := s.at[p];
    match step
    case LkAcquire(l) => MoveCore(s, p, Crit(l));
    case LkRelease => MoveCore(s, p, Run);
    case SleepAcquire(ch) => MovePCore(s, p, SleepHeld(ch, a.l), c);
    case SleepRelease => MoveCore(s, p, Window(a.chan, a.l));
    case Reacquired => MoveCore(s, p, if a.l == WAIT_LOCK then WaitScan(0, false) else Crit(a.l));
  }

  lemma WakeCore(s: State, c: nat, p: nat, step: WakeStep)
    requires Core(s) && c < |s.cat| && s.cat[c] == InProc(p) && p < |s.st| && WakeNext(s, c, p, step).Some?
    ensures Core(WakeNext(s, c, p, step).value)
  {
    Here(s, c, p);
    var a := s.at[p];
    match step
    case WakeBegin(ch) => MoveCore(s, p, Waking(ch, a.l, 0));
    case WakeOne => WakeOneCore(s, p, a.chan, a.l, a.k);
    case WakeEnd => MoveCore(s, p, Crit(a.l));
  }

  lemma WakeOneCore(s: State, p: nat, ch: int, l: nat, k: nat)
    requires Core(s) && p < |s.st| && k < |s.st| && (k == p || s.plock[k] == -1) && s.at[p] == Waking(ch, l, k)
    ensures Core(Move(Woken(s, p, k, ch), p, Waking(ch, l, k + 1)))
  {
    assert ProcOk(s.st[p], s.at[p], s.where[p], s.plock[p]);
    WokenCore(s, p, k, ch, Waking(ch, l, k + 1));
  }

  lemma WaitCore(s: State, c: nat, p: nat, step: WaitStep)
    requires Core(s) && c < |s.cat| && s.cat[c] == InProc(p) && p < |s.st| && WaitNext(s, c, p, step).Some?
    ensures Core(WaitNext(s, c, p, step).value)
  {
    Here(s, c, p);
    var a := s.at[p];
    match step
    case WaitBegin => MoveCore(s, p, WaitScan(0, false));
    case WaitChild(fault) => WaitChildCore(s, c, p, fault);
    case WaitLeave => MoveCore(s, p, Run);
    case WaitSleep => MovePCore(s, p, SleepHeld(p, WAIT_LOCK), c);
    case WaitNoblock(k) => FreedCore(s, k);
  }

  lemma WaitChildCore(s: State, c: nat, p: nat, fault: bool)
    requires Core(s) && c < |s.cat| && s.cat[c] == InProc(p) && p < |s.st| && WaitNext(s, c, p, WaitChild(fault)).Some?
    ensures Core(WaitNext(s, c, p, WaitChild(fault)).value)
  {
    Here(s, c, p);
    var a := s.at[p];
    if s.parent[a.k] == p && s.st[a.k] == ZOMBIE {
      if fault {
        MoveCore(s, p, Run);
      } else {
        FreedCore(s, a.k);
        MoveCore(Freed(s, a.k), p, Run);
      }
    } else {
      MoveCore(s, p, WaitScan(a.k + 1, a.have || s.parent[a.k] == p));
    }
  }

  lemma ReparentCore(s: State, c: nat, p: nat, step: ReparentStep)
    requires Core(s) && c < |s.cat| && s.cat[c] == InProc(p) && p < |s.st| && ReparentNext(s, c, p, step).Some?
    ensures Core(ReparentNext(s, c, p, step).value)
  {
    Here(s, c, p);
    var a := s.at[p];
    match step
    case ReparentOne => MoveCore(s, p, if s.parent[a.k] != p then Reparent(a.k + 1) else ReparentWake(a.k, 0));
    case ReparentWakeOne => ReparentWakeCore(s, p, a.k, a.j);
    case ReparentWakeEnd => MoveCore(s, p, Reparent(a.k + 1));
    case ReparentEnd => MoveCore(s, p, ExitWake(0));
  }

  lemma ReparentWakeCore(s: State, p: nat, k: nat, j: nat)
    requires Core(s) && p < |s.st| && j < |s.st| && (j == p || s.plock[j] == -1) && s.at[p] == ReparentWake(k, j)
    ensures Core(Move(Woken(s, p, j, INIT), p, ReparentWake(k, j + 1)))
  {
    assert ProcOk(s.st[p], s.at[p], s.where[p], s.plock[p]);
    WokenCore(s, p, j, INIT, ReparentWake(k, j + 1));
  }

  lemma ExitWakeCore(s: State, p: nat, j: nat)
    requires Core(s) && p < |s.st| && j < |s.st| && (j == p || s.plock[j] == -1) && s.at[p] == ExitWake(j)
    ensures Core(Move(Woken(s, p, j, s.parent[p]), p, ExitWake(j + 1)))
  {
    assert ProcOk(s.st[p], s.at[p], s.where[p], s.plock[p]);
    WokenCore(s, p, j, s.parent[p], ExitWake(j + 1));
  }

  lemma ExitCore(s: State, c: nat, p: nat, step: ExitStep)
    requires Core(s) && c < |s.cat| && s.cat[c] == InProc(p) && p < |s.st| && ExitNext(s, c, p, step).Some?
    ensures Core(ExitNext(s, c, p, step).value)
  {
    Here(s, c, p);
    var a := s.at[p];
    match step
    case ExitBegin => MoveCore(s, p, Reparent(0));
    case ExitWakeOne => ExitWakeCore(s, p, a.j);
    case ExitLock => MovePCore(s, p, ExitHeld, c);
    case ExitMark => SetBoth(s.st, s.at, s.where, s.plock, s.cat, s.cproc, p, ZOMBIE, ExitZombie);
    case ExitRelease => MoveCore(s, p, Dying);
  }

  lemma ForkCore(s: State, c: nat, p: nat, step: ForkStep)
    requires Core(s) && c < |s.cat| && s.cat[c] == InProc(p) && p < |s.st| && ForkNext(s, c, p, step).Some?
    requires s.at[p].ForkPub? || s.at[p].ForkRun? ==> s.at[p].child < |s.st| && s.st[s.at[p].child] == USED
    ensures Core(ForkNext(s, c, p, step).value)
  {
    Here(s, c, p);
    match step
    case ForkAlloc(k) => ChildCore(s, p, k, USED, Dormant, ForkPub(k));
    case ForkFail => ForkFailCore(s, p, s.at[p].child);
    case ForkParent => MoveCore(s, p, ForkRun(s.at[p].child));
    case ForkStart => ChildCore(s, p, s.at[p].child, RUNNABLE, Forkret, Run);
  }

  // The slot k, which has no thread, changes and p moves on.
  lemma ChildCore(s: State, p: nat, k: nat, x: PState, b: At, a: At)
    requires Core(s) && p < |s.st| && k < |s.st| && p != k && ProcOk(s.st[p], a, s.where[p], s.plock[p])
    requires s.st[k] == USED || (s.st[k] == UNUSED && s.plock[k] == -1)
    requires (x == USED && b == Dormant) || (x == RUNNABLE && b == Forkret)
    ensures Table(s.st[k := x], s.at[k := b][p := a], s.where, s.plock, s.cat, s.cproc)
  {
    assert ProcOk(s.st[k], s.at[k], s.where[k], s.plock[k]);
    SetTwo(s.st, s.at, s.where, s.plock, s.cat, s.cproc, k, x, b, p, a);
  }

  lemma ForkFailCore(s: State, p: nat, k: nat)
    requires Core(s) && p < |s.st| && k < |s.st| && s.st[k] == USED && ProcOk(s.st[p], Run, s.where[p], s.plock[p])
    ensures Core(Move(Freed(s, k), p, Run))
  {
    assert ProcOk(s.st[k], s.at[k], s.where[k], s.plock[k]);
    FreedCore(s, k);
    MoveCore(Freed(s, k), p, Run);
  }

  // ------------------------------------------------------------- scheduler()

  lemma LookTable(st: seq<PState>, at: seq<At>, where: seq<int>, plock: seq<int>, cat: seq<CpuAt>, cproc: seq<int>,
      c: nat, p: nat)
    requires Table(st, at, where, plock, cat, cproc) && c < |cat| && p < |st| && cat[c].Idle? && plock[p] == -1
    ensures Table(st, at, where, plock[p := c], cat[c := Look(p)], cproc)
  {
    CpuIs(cat, cproc, where, plock, c);
    assert LinkOk(p, where[p], plock[p], cat);
    assert ProcOk(st[p], at[p], where[p], plock[p]);
    forall d | 0 <= d < |cat| && d != c ensures CpuOk(cat[d], cproc[d], d, where, plock[p := c]) {
      CpuIs(cat, cproc, where, plock, d);
    }
    forall q | 0 <= q < |where| && q != p ensures LinkOk(q, where[q], plock[q], cat[c := Look(p)]) {
      assert LinkOk(q, where[q], plock[q], cat);
    }
  }

  lemma CpuIs(cat: seq<CpuAt>, cproc: seq<int>, where: seq<int>, plock: seq<int>, c: nat)
    requires CpuInv(cat, cproc, where, plock) && c < |cat|
    ensures CpuOk(cat[c], cproc[c], c, where, plock)
  {
  }

  lemma DropTable(st: seq<PState>, at: seq<At>, where: seq<int>, plock: seq<int>, cat: seq<CpuAt>, cproc: seq<int>,
      c: nat, p: nat)
    requires Table(st, at, where, plock, cat, cproc) && c < |cat| && p < |st|
    requires (cat[c] == Look(p) || cat[c] == Cleared(p))
    ensures Table(st, at, where, plock[p := -1], cat[c := Idle], cproc)
  {
    CpuIs(cat, cproc, where, plock, c);
    assert LinkOk(p, where[p], plock[p], cat);
    assert ProcOk(st[p], at[p], where[p], plock[p]);
    forall d | 0 <= d < |cat| && d != c ensures CpuOk(cat[d], cproc[d], d, where, plock[p := -1]) {
      CpuIs(cat, cproc, where, plock, d);
    }
    forall q | 0 <= q < |where| && q != p ensures LinkOk(q, where[q], plock[q], cat[c := Idle]) {
      assert LinkOk(q, where[q], plock[q], cat);
    }
  }

  lemma SwitchTable(st: seq<PState>, at: seq<At>, where: seq<int>, plock: seq<int>, cat: seq<CpuAt>, cproc: seq<int>,
      c: nat, p: nat)
    requires Table(st, at, where, plock, cat, cproc) && c < |cat| && p < |st| && cat[c] == Look(p) && st[p] == RUNNABLE
    ensures Table(st[p := RUNNING], at, where[p := c], plock, cat[c := InProc(p)], cproc[c := p])
  {
    CpuIs(cat, cproc, where, plock, c);
    assert LinkOk(p, where[p], plock[p], cat);
    assert ProcOk(st[p], at[p], where[p], plock[p]);
    forall d | 0 <= d < |cat| && d != c ensures CpuOk(cat[d], cproc[d], d, where[p := c], plock) {
      CpuIs(cat, cproc, where, plock, d);
    }
    forall q | 0 <= q < |where| && q != p ensures LinkOk(q, where[q], plock[q], cat[c := InProc(p)]) {
      assert LinkOk(q, where[q], plock[q], cat);
    }
  }

  lemma ClearTable(st: seq<PState>, at: seq<At>, where: seq<int>, plock: seq<int>, cat: seq<CpuAt>, cproc: seq<int>,
      c: nat, p: nat)
    requires Table(st, at, where, plock, cat, cproc) && c < |cat| && cat[c] == Back(p)
    ensures Table(st, at, where, plock, cat[c := Cleared(p)], cproc[c := -1])
  {
    CpuIs(cat, cproc, where, plock, c);
    forall d | 0 <= d < |cat| && d != c ensures CpuOk(cat[d], cproc[d], d, where, plock) {
      CpuIs(cat, cproc, where, plock, d);
    }
    forall q | 0 <= q < |where| ensures LinkOk(q, where[q], plock[q], cat[c := Cleared(p)]) {
      assert LinkOk(q, where[q], plock[q], cat);
    }
  }

  // sched(): p, which holds its lock, leaves CPU c.
  lemma LeaveTable(st: seq<PState>, at: seq<At>, where: seq<int>, plock: seq<int>, cat: seq<CpuAt>, cproc: seq<int>,
      c: nat, p: nat,
      x: PState, a: At)
    requires Table(st, at, where, plock, cat, cproc) && c < |cat| && p < |st| && cat[c] == InProc(p) && HoldsOwn(at[p])
    requires ProcOk(x, a, -1, c)
    ensures Table(st[p := x], at[p := a], where[p := -1], plock, cat[c := Back(p)], cproc)
  {
    CpuIs(cat, cproc, where, plock, c);
    assert ProcOk(st[p], at[p], where[p], plock[p]);
    forall d | 0 <= d < |cat| && d != c ensures CpuOk(cat[d], cproc[d], d, where[p := -1], plock) {
      CpuIs(cat, cproc, where, plock, d);
    }
    forall q | 0 <= q < |where| && q != p ensures LinkOk(q, where[q], plock[q], cat[c := Back(p)]) {
      assert LinkOk(q, where[q], plock[q], cat);
    }
  }

  lemma SchedCore(s: State, c: nat, step: SchedStep)
    requires Core(s) && c < |s.cat| && SchedNext(s, c, step).Some?
    ensures Core(SchedNext(s, c, step).value)
  {
    match step
    case LookAt(p) => LookTable(s.st, s.at, s.where, s.plock, s.cat, s.cproc, c, p);
    case Skip => DropTable(s.st, s.at, s.where, s.plock, s.cat, s.cproc, c, s.cat[c].p);
    case Switch => SwitchTable(s.st, s.at, s.where, s.plock, s.cat, s.cproc, c, s.cat[c].p);
    case ClearProc => ClearTable(s.st, s.at, s.where, s.plock, s.cat, s.cproc, c, s.cat[c].p);
    case Release => DropTable(s.st, s.at, s.where, s.plock, s.cat, s.cproc, c, s.cat[c].p);
  }

  lemma SwitchCore(s: State, c: nat, p: nat, step: SwitchStep)
    requires Core(s) && c < |s.cat| && s.cat[c] == InProc(p) && p < |s.st| && SwitchNext(s, c, p, step).Some?
    ensures Core(SwitchNext(s, c, p, step).value)
  {
    Here(s, c, p);
    var a := s.at[p];
    match step
    case Resume =>
      MovePCore(s, p, if a.Forkret? then Run else if a.Yielded? then a.next else Reacquire(a.l), -1);
    case YieldAcquire => MovePCore(s, p, YieldHeld(a), c);
    case YieldSwitch =>
      LeaveTable(s.st, s.at, s.where, s.plock, s.cat, s.cproc, c, p, RUNNABLE, Yielded(a.next));
    case SleepSwitch =>
      LeaveTable(s.st, s.at, s.where, s.plock, s.cat, s.cproc, c, p, SLEEPING, Asleep(a.chan, a.l));
    case ExitSwitch =>
      LeaveTable(s.st, s.at, s.where, s.plock, s.cat, s.cproc, c, p, s.st[p], Dead);
  }
}
