// The thread of one process over a whole call: yield(), sleep(), wakeup() and the scan of
// wait() do for their caller what the call asked for.
module ProcThread {
  import opened Common
  import opened ProcSpec
  import opened ProcProof
  import opened ProcWait
  import opened ProcSteps
  import opened ProcTheorems
  import opened ProcFamily

  // ------------------------------------------------------ the thread of p

  predicate InYield(a: At) {
    a.YieldHeld? || a.Yielded?
  }

  predicate InSleep(a: At) {
    a.SleepHeld? || a.Window? || a.Asleep? || Base(a).Reacquire?
  }

  // Not woken yet.
  predicate InBed(a: At) {
    a.SleepHeld? || a.Window? || a.Asleep?
  }

  // The lock that sleep() was called with, and where it returns to.
  function SleepLock(a: At): nat
    requires InSleep(a)
  {
    Base(a).l
  }

  function Return(l: nat): At {
    if l == WAIT_LOCK then WaitScan(0, false) else Crit(l)
  }

  // Between a and b the thread has been in yield() or has just left it,
  predicate YieldGoes(a: At, b: At) {
    InYield(a) ==> b == a.next || (InYield(b) && b.next == a.next)
  }

  // in sleep() or has just left it,
  predicate SleepGoes(a: At, b: At) {
    InSleep(a) ==>
      && (if InSleep(b) then SleepLock(b) == SleepLock(a) else b == Return(SleepLock(a)))
      && (InBed(b) ==> InBed(a) && b.chan == a.chan)
  }

  // in a wakeup(),
  predicate WakeGoes(a: At, b: At) {
    a.Waking? && b.Waking? ==> b.chan == a.chan && b.l == a.l
  }

  // in the scan of wait(), or starts it.
  predicate ScanGoes(parent: seq<int>, p: nat, a: At, b: At) {
    b.WaitScan? ==>
      || b == a || b == WaitScan(0, false)
      || (a.WaitScan? && a.k < |parent| && b == WaitScan(a.k + 1, a.have || parent[a.k] == p))
  }

  predicate Goes(parent: seq<int>, p: nat, a: At, b: At) {
    YieldGoes(a, b) && SleepGoes(a, b) && WakeGoes(a, b) && ScanGoes(parent, p, a, b)
  }

  // Only thread p moved, and the thread that p may have made.
  ghost predicate Moved(at: seq<At>, at': seq<At>, parent: seq<int>, p: nat) {
    && |at'| == |at|
    && (forall q :: 0 <= q < |at| && q != p && (Rears(at[q]) || at'[q].WaitScan?) ==> at'[q] == at[q])
    && (p < |at| ==> Goes(parent, p, at[p], at'[p]))
  }

  lemma SwitchMoved(s: State, c: nat, x: SwitchStep)
    requires Family(s) && Runs(s, c) && SwitchNext(s, c, s.cat[c].p, x).Some?
    ensures Moved(s.at, SwitchNext(s, c, s.cat[c].p, x).value.at, s.parent, s.cat[c].p)
  {
    Running(s, c);
  }

  lemma SleepMoved(s: State, c: nat, x: SleepStep)
    requires Shape(s) && Runs(s, c) && SleepNext(s, c, s.cat[c].p, x).Some?
    ensures Moved(s.at, SleepNext(s, c, s.cat[c].p, x).value.at, s.parent, s.cat[c].p)
  {
  }

  lemma WaitMoved(s: State, c: nat, x: WaitStep)
    requires Shape(s) && Runs(s, c) && WaitNext(s, c, s.cat[c].p, x).Some?
    ensures Moved(s.at, WaitNext(s, c, s.cat[c].p, x).value.at, s.parent, s.cat[c].p)
  {
  }

  lemma ForkMoved(s: State, c: nat, x: ForkStep)
    requires Family(s) && Runs(s, c) && ForkNext(s, c, s.cat[c].p, x).Some?
    ensures Moved(s.at, ForkNext(s, c, s.cat[c].p, x).value.at, s.parent, s.cat[c].p)
  {
    var p := s.cat[c].p;
    match x
    case ForkAlloc(k) => StateOf(s, k);
    case _ =>
      OneMaker(s, p, s.at[p].child);
      StateOf(s, s.at[p].child);
  }

  lemma WakeMoved(s: State, c: nat, x: WakeStep)
    requires Shape(s) && Runs(s, c) && WakeNext(s, c, s.cat[c].p, x).Some?
    ensures Moved(s.at, WakeNext(s, c, s.cat[c].p, x).value.at, s.parent, s.cat[c].p)
  {
  }

  lemma ReparentMoved(s: State, c: nat, x: ReparentStep)
    requires Shape(s) && Runs(s, c) && ReparentNext(s, c, s.cat[c].p, x).Some?
    ensures Moved(s.at, ReparentNext(s, c, s.cat[c].p, x).value.at, s.parent, s.cat[c].p)
  {
  }

  lemma ExitMoved(s: State, c: nat, x: ExitStep)
    requires Shape(s) && Runs(s, c) && ExitNext(s, c, s.cat[c].p, x).Some?
    ensures Moved(s.at, ExitNext(s, c, s.cat[c].p, x).value.at, s.parent, s.cat[c].p)
  {
  }

  lemma MovedGoes(at: seq<At>, at': seq<At>, parent: seq<int>, r: nat, p: nat)
    requires Moved(at, at', parent, r) && p < |at|
    ensures ScanGoes(parent, p, at[p], at'[p]) && (Rears(at[p]) ==> Goes(parent, p, at[p], at'[p]))
  {
  }

  lemma StepMoved(s: State, step: Step) returns (r: nat)
    requires Family(s) && Next(s, step).Some?
    ensures Moved(s.at, Next(s, step).value.at, s.parent, r)
  {
    r := |s.at|;
    match step
    case Swtch(c, x) => r := s.cat[c].p; SwitchMoved(s, c, x);
    case Sleeping(c, x) => r := s.cat[c].p; SleepMoved(s, c, x);
    case Wakeup(c, x) => r := s.cat[c].p; WakeMoved(s, c, x);
    case Waiting(c, x) => r := s.cat[c].p; WaitMoved(s, c, x);
    case Forking(c, x) => r := s.cat[c].p; ForkMoved(s, c, x);
    case Reparenting(c, x) => r := s.cat[c].p; ReparentMoved(s, c, x);
    case Exiting(c, x) => r := s.cat[c].p; ExitMoved(s, c, x);
    case Sched(_, _) =>
    case Interrupt(_, _) =>
    case Rouse(_) =>
  }

  lemma AtStep(s: State, step: Step, p: nat)
    requires Family(s) && Next(s, step).Some? && p < |s.st|
    ensures |Next(s, step).value.at| == |s.at| && ScanGoes(s.parent, p, s.at[p], Next(s, step).value.at[p])
    ensures Rears(s.at[p]) ==> Goes(s.parent, p, s.at[p], Next(s, step).value.at[p])
  {
    var r := StepMoved(s, step);
    MovedGoes(s.at, Next(s, step).value.at, s.parent, r, p);
  }

  // Process p is in yield(), or in sleep(), up to the last state.
  ghost predicate YieldsOn(s: State, steps: seq<Step>, s': State, p: nat)
    requires Shape(s) && Reaches(s, steps, s')
    decreases |steps|
  {
    steps != [] ==> p < |s.at| && InYield(s.at[p]) && YieldsOn(Next(s, steps[0]).value, steps[1..], s', p)
  }

  ghost predicate SleepsOn(s: State, steps: seq<Step>, s': State, p: nat)
    requires Shape(s) && Reaches(s, steps, s')
    decreases |steps|
  {
    steps != [] ==> p < |s.at| && InSleep(s.at[p]) && SleepsOn(Next(s, steps[0]).value, steps[1..], s', p)
  }

  lemma YieldThen(a: At, b: At, d: At)
    requires InYield(a) && InYield(b) && YieldGoes(a, b) && YieldGoes(b, d) && NestOk(a) && NestOk(b)
    ensures YieldGoes(a, d)
  {
  }

  lemma {:induction false} YieldRun(s: State, steps: seq<Step>, s': State, p: nat)
    requires Family(s) && Reaches(s, steps, s') && p < |s.at| && YieldsOn(s, steps, s', p) && InYield(s.at[p])
    ensures p < |s'.at| && YieldGoes(s.at[p], s'.at[p])
    decreases |steps|
  {
    if steps != [] {
      var s1 := Next(s, steps[0]).value;
      FamilyStep(s, steps[0]);
      AtStep(s, steps[0], p);
      if |steps| > 1 {
        YieldRun(s1, steps[1..], s', p);
        NestOf(s, p);
        NestOf(s1, p);
        YieldThen(s.at[p], s1.at[p], s'.at[p]);
      }
    }
  }

  lemma NestOf(s: State, p: nat)
    requires Good(s) && p < |s.at|
    ensures NestOk(s.at[p])
  {
    assert ProcOk(s.st[p], s.at[p], s.where[p], s.plock[p]);
  }

  lemma {:induction false} SleepRun(s: State, steps: seq<Step>, s': State, p: nat)
    requires Family(s) && Reaches(s, steps, s') && p < |s.at| && SleepsOn(s, steps, s', p) && InSleep(s.at[p])
    ensures p < |s'.at| && SleepGoes(s.at[p], s'.at[p])
    decreases |steps|
  {
    if steps != [] {
      FamilyStep(s, steps[0]);
      AtStep(s, steps[0], p);
      if |steps| > 1 {
        SleepRun(Next(s, steps[0]).value, steps[1..], s', p);
      }
    }
  }

  // yield() returns to where the process was, and until then the process is never asleep.
  lemma YieldReturns(s0: State, before: seq<Step>, s: State, c: nat, s1: State, during: seq<Step>, s': State)
    requires Init(s0) && Reaches(s0, before, s) && Next(s, Swtch(c, YieldAcquire)) == Some(s1)
    requires Shape(s1) && Reaches(s1, during, s') && YieldsOn(s1, during, s', s.cat[c].p)
    ensures var p := s.cat[c].p;
            && p < |s'.at| == |s'.st| && (InYield(s'.at[p]) || s'.at[p] == s.at[p])
            && (s'.st[p] == RUNNABLE || s'.st[p] == RUNNING)
  {
    FamilyInit(s0);
    FamilyRun(s0, before, s);
    FamilyStep(s, Swtch(c, YieldAcquire));
    FamilyRun(s1, during, s');
    YieldRun(s1, during, s', s.cat[c].p);
    AwakeAt(s', s.cat[c].p);
  }

  // Who yields, or can be made to, is not asleep.
  lemma AwakeAt(s: State, p: nat)
    requires Good(s) && p < |s.at| && (InYield(s.at[p]) || Preemptible(s.at[p]))
    ensures s.st[p] == RUNNABLE || s.st[p] == RUNNING
  {
    assert ProcOk(s.st[p], s.at[p], s.where[p], s.plock[p]);
  }

  // sleep() returns with the lock that it was called with.
  lemma SleepReturnsLocked(s0: State, before: seq<Step>, s: State, c: nat, ch: int, s1: State, during: seq<Step>,
      s': State)
    requires Init(s0) && Reaches(s0, before, s) && Next(s, Sleeping(c, SleepAcquire(ch))) == Some(s1)
    requires Shape(s1) && Reaches(s1, during, s') && SleepsOn(s1, during, s', s.cat[c].p)
    ensures var p := s.cat[c].p;
            && p < |s'.at| && s.at[p].Crit?
            && (InSleep(s'.at[p]) || (s'.at[p] == Return(s.at[p].l) && HeldBy(p, s.at[p].l, s'.lk)))
  {
    var p := s.cat[c].p;
    FamilyInit(s0);
    FamilyRun(s0, before, s);
    FamilyStep(s, Sleeping(c, SleepAcquire(ch)));
    FamilyRun(s1, during, s');
    SleepRun(s1, during, s', p);
    assert HeldBy(p, LkOf(s'.at[p]), s'.lk);
  }

  // ---------------------------------------------------- sleep() meets wakeup()

  // Process p is in the same wakeup() all the way.
  ghost predicate WakesAlong(s: State, steps: seq<Step>, s': State, p: nat)
    requires Shape(s) && Reaches(s, steps, s')
    decreases |steps|
  {
    p < |s.at| && s.at[p].Waking? && (steps != [] ==> WakesAlong(Next(s, steps[0]).value, steps[1..], s', p))
  }

  lemma {:induction false} WakeRun(s: State, steps: seq<Step>, s': State, p: nat)
    requires Family(s) && Reaches(s, steps, s') && WakesAlong(s, steps, s', p)
    ensures p < |s'.at| && s'.at[p].Waking? && WakeGoes(s.at[p], s'.at[p])
    decreases |steps|
  {
    if steps != [] {
      FamilyStep(s, steps[0]);
      AtStep(s, steps[0], p);
      WakeRun(Next(s, steps[0]).value, steps[1..], s', p);
    }
  }

  // The handler on CPU c is in the same wakeup() all the way.
  ghost predicate ScansAlong(s: State, steps: seq<Step>, s': State, c: nat)
    requires Shape(s) && Reaches(s, steps, s')
    decreases |steps|
  {
    c < |s.irq| && s.irq[c].Scans? && (steps != [] ==> ScansAlong(Next(s, steps[0]).value, steps[1..], s', c))
  }

  lemma ScansStep(s: State, step: Step, c: nat)
    requires Shape(s) && Next(s, step).Some? && c < |s.irq| && s.irq[c].Scans?
    ensures var s' := Next(s, step).value;
            c < |s'.irq| && (s'.irq[c].Scans? ==> s'.irq[c].chan == s.irq[c].chan && s'.irq[c].l == s.irq[c].l)
  {
  }

  lemma {:induction false} ScansRun(s: State, steps: seq<Step>, s': State, c: nat)
    requires Shape(s) && Reaches(s, steps, s') && ScansAlong(s, steps, s', c)
    ensures c < |s'.irq| && s'.irq[c].Scans? && s'.irq[c].chan == s.irq[c].chan && s'.irq[c].l == s.irq[c].l
    decreases |steps|
  {
    if steps != [] {
      ScansStep(s, steps[0], c);
      ScansRun(Next(s, steps[0]).value, steps[1..], s', c);
    }
  }

  // From s on, process p has been in the sleep() that it began with the step of CPU c.
  ghost predicate SleepsSince(s0: State, before: seq<Step>, s: State, c: nat, ch: int, during: seq<Step>, s': State) {
    && Init(s0) && Reaches(s0, before, s) && Next(s, Sleeping(c, SleepAcquire(ch))).Some?
    && var s1 := Next(s, Sleeping(c, SleepAcquire(ch))).value;
       && Shape(s1) && Reaches(s1, during, s') && SleepsOn(s1, during, s', s.cat[c].p)
       && s.cat[c].p < |s'.at| && InBed(s'.at[s.cat[c].p])
  }

  // It is on the channel and with the lock of that call.
  lemma BedOf(s0: State, before: seq<Step>, s: State, c: nat, ch: int, during: seq<Step>, s': State)
    requires SleepsSince(s0, before, s, c, ch, during, s')
    ensures var p := s.cat[c].p;
            p < |s.at| && s.at[p].Crit? && s'.at[p].chan == ch && s'.at[p].l == s.at[p].l && Family(s')
  {
    var s1 := Next(s, Sleeping(c, SleepAcquire(ch))).value;
    FamilyInit(s0);
    FamilyRun(s0, before, s);
    FamilyStep(s, Sleeping(c, SleepAcquire(ch)));
    FamilyRun(s1, during, s');
    SleepRun(s1, during, s', s.cat[c].p);
  }

  // A process that holds lock l calls wakeup(ch), and has come to the end of the table.
  ghost predicate WakesThrough(s: State, d: nat, ch: int, l: nat, after: seq<Step>, s': State) {
    && Shape(s) && Next(s, Wakeup(d, WakeBegin(ch))).Some? && s.at[s.cat[d].p] == Crit(l)
    && var s1, w := Next(s, Wakeup(d, WakeBegin(ch))).value, s.cat[d].p;
       && Shape(s1) && Reaches(s1, after, s') && WakesAlong(s1, after, s', w)
       && w < |s'.at| && s'.at[w].Waking? && s'.at[w].k == |s'.st|
  }

  // The handler on CPU d does.
  ghost predicate ScansThrough(s: State, d: nat, ch: int, l: nat, after: seq<Step>, s': State) {
    && Shape(s) && Next(s, Interrupt(d, IrqWake(ch))).Some? && s.irq[d] == Holds(l)
    && var s1 := Next(s, Interrupt(d, IrqWake(ch))).value;
       && Shape(s1) && Reaches(s1, after, s') && ScansAlong(s1, after, s', d)
       && d < |s'.irq| && s'.irq[d].Scans? && s'.irq[d].k == |s'.st|
  }

  lemma WakeBeginDone(s: State, d: nat, ch: int, l: nat, after: seq<Step>, s': State)
    requires Family(s) && WakesThrough(s, d, ch, l, after, s')
    ensures Family(Next(s, Wakeup(d, WakeBegin(ch))).value) && Family(s') && WakeupDone(s', ch, l)
  {
    var s1 := Next(s, Wakeup(d, WakeBegin(ch))).value;
    FamilyStep(s, Wakeup(d, WakeBegin(ch)));
    FamilyRun(s1, after, s');
    WakeRun(s1, after, s', s.cat[d].p);
    assert s'.at[s.cat[d].p] == Waking(ch, l, |s'.st|);
  }

  lemma IrqWakeDone(s: State, d: nat, ch: int, l: nat, after: seq<Step>, s': State)
    requires Family(s) && ScansThrough(s, d, ch, l, after, s')
    ensures Family(Next(s, Interrupt(d, IrqWake(ch))).value) && Family(s') && WakeupDone(s', ch, l)
  {
    var s1 := Next(s, Interrupt(d, IrqWake(ch))).value;
    FamilyStep(s, Interrupt(d, IrqWake(ch)));
    FamilyRun(s1, after, s');
    ScansRun(s1, after, s', d);
    assert s'.irq[d] == Scans(ch, l, |s'.st|);
  }

  // Whoever holds the lock finds the sleeper past letting go of it.
  lemma LetGo(s: State, p: nat, ch: int, l: nat)
    requires Family(s) && p < |s.at| && InBed(s.at[p]) && s.at[p].chan == ch && s.at[p].l == l
    requires l < |s.lk| && s.lk[l] != p && (s.at[p].Window? || s.st[p] == SLEEPING)
    ensures Dozing(s.st[p], s.at[p], ch, l)
  {
    assert HeldBy(p, LkOf(s.at[p]), s.lk);
  }

  // sleep(ch, lk) in one process and, later, wakeup(ch) under lk in another: if the sleeper
  // is still asleep, it has been made RUNNABLE by the time that the wakeup is done.
  lemma WakeupEndsSleep(s0: State, before: seq<Step>, s: State, c: nat, ch: int, during: seq<Step>, s2: State, d: nat,
      after: seq<Step>, s': State) returns (k: nat, mid: State)
    requires SleepsSince(s0, before, s, c, ch, during, s2) && s.cat[c].p < |s.at| && s.at[s.cat[c].p].Crit?
    requires s.cat[c].p < |s2.st| && (s2.at[s.cat[c].p].Window? || s2.st[s.cat[c].p] == SLEEPING)
    requires WakesThrough(s2, d, ch, s.at[s.cat[c].p].l, after, s')
    ensures k <= |after| && Reaches(Next(s2, Wakeup(d, WakeBegin(ch))).value, after[..k], mid)
    ensures s.cat[c].p < |mid.st| && mid.st[s.cat[c].p] == RUNNABLE
  {
    var p := s.cat[c].p;
    var l := s.at[p].l;
    var s3 := Next(s2, Wakeup(d, WakeBegin(ch))).value;
    BedOf(s0, before, s, c, ch, during, s2);
    assert HeldBy(s2.cat[d].p, LkOf(s2.at[s2.cat[d].p]), s2.lk);
    LetGo(s2, p, ch, l);
    WakeBeginDone(s2, d, ch, l, after, s');
    k, mid := Reached(s3, after, s', p, ch, l);
  }

  lemma HandlerHas(s: State, d: nat, l: nat)
    requires Good(s) && d < |s.irq| && s.irq[d] == Holds(l)
    ensures l < |s.lk| && s.lk[l] < 0
  {
    assert HandlerOk(s, d);
  }

  // The same for a handler that holds the lock.
  lemma HandlerEndsSleep(s0: State, before: seq<Step>, s: State, c: nat, ch: int, during: seq<Step>, s2: State, d: nat,
      after: seq<Step>, s': State) returns (k: nat, mid: State)
    requires SleepsSince(s0, before, s, c, ch, during, s2) && s.cat[c].p < |s.at| && s.at[s.cat[c].p].Crit?
    requires s.cat[c].p < |s2.st| && (s2.at[s.cat[c].p].Window? || s2.st[s.cat[c].p] == SLEEPING)
    requires ScansThrough(s2, d, ch, s.at[s.cat[c].p].l, after, s')
    ensures k <= |after| && Reaches(Next(s2, Interrupt(d, IrqWake(ch))).value, after[..k], mid)
    ensures s.cat[c].p < |mid.st| && mid.st[s.cat[c].p] == RUNNABLE
  {
    var p := s.cat[c].p;
    var l := s.at[p].l;
    var s3 := Next(s2, Interrupt(d, IrqWake(ch))).value;
    BedOf(s0, before, s, c, ch, during, s2);
    HandlerHas(s2, d, l);
    LetGo(s2, p, ch, l);
    IrqWakeDone(s2, d, ch, l, after, s');
    k, mid := Reached(s3, after, s', p, ch, l);
  }

  lemma {:induction false} SameSize(s: State, steps: seq<Step>, s': State)
    requires Family(s) && Reaches(s, steps, s')
    ensures |s'.st| == |s.st|
    decreases |steps|
  {
    if steps != [] {
      var e := EffectOf(s, steps[0]);
      FamilyStep(s, steps[0]);
      SameSize(Next(s, steps[0]).value, steps[1..], s');
    }
  }

  lemma Reached(s: State, after: seq<Step>, s': State, p: nat, ch: int, l: nat) returns (k: nat, mid: State)
    requires Family(s) && Family(s') && Reaches(s, after, s') && p < |s.st|
    requires Dozing(s.st[p], s.at[p], ch, l) && WakeupDone(s', ch, l)
    ensures k <= |after| && Reaches(s, after[..k], mid) && p < |mid.st| && mid.st[p] == RUNNABLE
  {
    SameSize(s, after, s');
    AllPassed(s', ch, l, p);
    k, mid := MadeRunnable(s, after, s', p, ch, l);
  }

  // ------------------------------------------------------- havekids in wait()

  ghost predicate ScanOk(parent: seq<int>, p: nat, a: At) {
    a.WaitScan? ==> a.k <= |parent| && (a.have <==> !NoneBelow(parent, p, a.k))
  }

  ghost predicate Knows(s: State) {
    forall p {:trigger ScanOk(s.parent, p, s.at[p])} :: 0 <= p < |s.at| ==> ScanOk(s.parent, p, s.at[p])
  }

  // p has the same children.
  ghost predicate SameFor(parent: seq<int>, parent': seq<int>, p: nat) {
    |parent'| == |parent| && forall q :: 0 <= q < |parent| ==> (parent'[q] == p <==> parent[q] == p)
  }

  lemma NobodyExits(s: State, p: nat)
    requires Good(s) && p < |s.at| && s.at[p].WaitScan?
    ensures forall q :: 0 <= q < |s.at| ==> !s.at[q].Reparent?
  {
    assert HeldBy(p, LkOf(s.at[p]), s.lk);
    forall q | 0 <= q < |s.at| ensures !s.at[q].Reparent? {
      assert HeldBy(q, LkOf(s.at[q]), s.lk);
    }
  }

  // While wait() scans, nobody becomes the caller's child or ceases to be.
  lemma SameChildren(s: State, step: Step, p: nat)
    requires Family(s) && Next(s, step).Some? && p < |s.st| && s.at[p].WaitScan?
    ensures |Next(s, step).value.at| == |s.at|
    ensures Next(s, step).value.at[p].WaitScan? ==> SameFor(s.parent, Next(s, step).value.parent, p)
  {
    var e := EffectOf(s, step);
    AtStep(s, step, p);
    assert HeldBy(p, LkOf(s.at[p]), s.lk);
    NobodyExits(s, p);
    if e.Frees? {
      assert ChildOk(s.st, s.at, s.parent, e.k);
    }
  }

  lemma ScanOn(parent: seq<int>, parent': seq<int>, p: nat, a: At, b: At)
    requires SameFor(parent, parent', p) && ScanOk(parent, p, a) && a.WaitScan? && ScanGoes(parent, p, a, b)
    ensures ScanOk(parent', p, b)
  {
    assert b.WaitScan? && b != a && b.k == a.k + 1 ==>
      (NoneBelow(parent', p, b.k) <==> NoneBelow(parent', p, a.k) && parent'[a.k] != p);
  }

  lemma ScanStep(s: State, step: Step, p: nat)
    requires Family(s) && Knows(s) && Next(s, step).Some? && p < |s.st|
    ensures |Next(s, step).value.at| == |s.at| && ScanOk(Next(s, step).value.parent, p, Next(s, step).value.at[p])
  {
    var s' := Next(s, step).value;
    assert ScanOk(s.parent, p, s.at[p]);
    AtStep(s, step, p);
    if s.at[p].WaitScan? {
      SameChildren(s, step, p);
      if s'.at[p].WaitScan? {
        ScanOn(s.parent, s'.parent, p, s.at[p], s'.at[p]);
      }
    }
  }

  lemma {:induction false} KnowsRun(s: State, steps: seq<Step>, s': State)
    requires Family(s) && Knows(s) && Reaches(s, steps, s')
    ensures Knows(s')
    decreases |steps|
  {
    if steps != [] {
      FamilyStep(s, steps[0]);
      forall p | 0 <= p < |s.st| ensures ScanOk(Next(s, steps[0]).value.parent, p, Next(s, steps[0]).value.at[p]) {
        ScanStep(s, steps[0], p);
      }
      KnowsRun(Next(s, steps[0]).value, steps[1..], s');
    }
  }

  // At the end of its scan wait() has seen a child if and only if it has one.
  lemma WaitCountsChildren(s0: State, steps: seq<Step>, s: State, p: nat)
    requires Init(s0) && Reaches(s0, steps, s) && p < |s.st| && s.at[p].WaitScan? && s.at[p].k == |s.st|
    ensures s.at[p].have <==> exists q :: 0 <= q < |s.parent| && s.parent[q] == p
  {
    FamilyInit(s0);
    KnowsRun(s0, steps, s);
    assert ScanOk(s.parent, p, s.at[p]);
  }
}
