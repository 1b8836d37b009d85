// What every run of the process table guarantees.
module ProcTheorems {
  import opened Common
  import opened ProcSpec
  import opened ProcProof
  import opened ProcWait
  import opened ProcSteps

  // ------------------------------------------- what a step leaves alone

  // From (x, a) to (x', a') a process stays where it is or is made RUNNABLE.
  predicate OnlyWoken(x: PState, a: At, x': PState, a': At) {
    a' == a && (x' == x || (x == SLEEPING && x' == RUNNABLE))
  }

  // Nobody falls asleep, and who sleeps or runs does not move.
  predicate Bystander(x: PState, a: At, x': PState, a': At) {
    && Calm(x, a, x', a') && (a' == a || a'.Dormant? || a'.Forkret?)
    && (x == SLEEPING || x == RUNNING ==> OnlyWoken(x, a, x', a'))
  }

  // A step of CPU d, in the name of process r, which is v as the holder of a lock.
  ghost predicate Quiet(s: State, s': State, d: int, r: int, v: int)
    requires Shape(s) && Shape(s')
  {
    && |s'.st| == |s.st| && |s'.lk| == |s.lk| && |s'.cat| == |s.cat|
    && (forall q {:trigger s'.at[q]} {:trigger s'.st[q]} ::
          0 <= q < |s.st| && q != r ==> Bystander(s.st[q], s.at[q], s'.st[q], s'.at[q]))
    && (forall c {:trigger s'.cat[c]} {:trigger s'.irq[c]} ::
          0 <= c < |s.cat| && c != d ==> s'.cat[c] == s.cat[c] && s'.irq[c] == s.irq[c])
    && (forall l {:trigger s'.lk[l]} :: 0 <= l < |s.lk| ==> s'.lk[l] == s.lk[l] || s.lk[l] == -1 || s.lk[l] == v)
  }

  // Whoever lets go of wait_lock in sleep() sleeps in wait(), on itself.
  predicate WaitChan(a: At, p: nat) {
    (a.SleepHeld? || a.Window? || a.Asleep?) && a.l == WAIT_LOCK ==> a.chan == p
  }

  // A process falls asleep only by letting go of the lock that it holds.
  ghost predicate Doze(s: State, s': State, r: nat)
    requires Shape(s) && Shape(s') && |s.st| == |s'.st| && r < |s.st|
  {
    && (WaitChan(s.at[r], r) ==> WaitChan(s'.at[r], r))
    && (|| Calm(s.st[r], s.at[r], s'.st[r], s'.at[r])
        || (s.at[r].SleepHeld? && s'.at[r] == Window(s.at[r].chan, s.at[r].l) && s.at[r].l < |s.lk| && s.lk[s.at[r].l] == r))
  }

  lemma SchedQuiet(s: State, c: nat, x: SchedStep)
    requires Shape(s) && c < |s.cat| && SchedNext(s, c, x).Some?
    ensures Shape(SchedNext(s, c, x).value) && Quiet(s, SchedNext(s, c, x).value, c, -1, -1)
  {
  }

  // CPU c runs the thread of r, which holds the lock it says it holds.
  ghost predicate Actor(s: State, c: nat, r: nat) {
    Shape(s) && c < |s.cat| && r < |s.st| && HeldBy(r, LkOf(s.at[r]), s.lk) && NestOk(s.at[r])
  }

  lemma SwitchQuiet(s: State, c: nat, r: nat, x: SwitchStep)
    requires Actor(s, c, r) && SwitchNext(s, c, r, x).Some?
    ensures var s' := SwitchNext(s, c, r, x).value; Shape(s') && Quiet(s, s', c, r, r) && Doze(s, s', r)
  {
  }

  lemma SleepQuiet(s: State, c: nat, r: nat, x: SleepStep)
    requires Actor(s, c, r) && SleepNext(s, c, r, x).Some?
    ensures var s' := SleepNext(s, c, r, x).value; Shape(s') && Quiet(s, s', c, r, r) && Doze(s, s', r)
  {
  }

  lemma WakeQuiet(s: State, c: nat, r: nat, x: WakeStep)
    requires Actor(s, c, r) && WakeNext(s, c, r, x).Some?
    ensures var s' := WakeNext(s, c, r, x).value; Shape(s') && Quiet(s, s', c, r, r) && Doze(s, s', r)
  {
  }

  lemma WaitQuiet(s: State, c: nat, r: nat, x: WaitStep)
    requires Actor(s, c, r) && WaitNext(s, c, r, x).Some?
    ensures var s' := WaitNext(s, c, r, x).value; Shape(s') && Quiet(s, s', c, r, r) && Doze(s, s', r)
  {
  }

  lemma ReparentQuiet(s: State, c: nat, r: nat, x: ReparentStep)
    requires Actor(s, c, r) && ReparentNext(s, c, r, x).Some?
    ensures var s' := ReparentNext(s, c, r, x).value; Shape(s') && Quiet(s, s', c, r, r) && Doze(s, s', r)
  {
  }

  lemma ExitQuiet(s: State, c: nat, r: nat, x: ExitStep)
    requires Actor(s, c, r) && ExitNext(s, c, r, x).Some?
    ensures var s' := ExitNext(s, c, r, x).value; Shape(s') && Quiet(s, s', c, r, r) && Doze(s, s', r)
  {
  }

  lemma ForkQuiet(s: State, c: nat, r: nat, x: ForkStep)
    requires Actor(s, c, r) && ForkNext(s, c, r, x).Some?
    requires s.at[r].ForkPub? || s.at[r].ForkRun? ==> s.at[r].child < |s.st| && s.st[s.at[r].child] == USED
    ensures var s' := ForkNext(s, c, r, x).value; Shape(s') && Quiet(s, s', c, r, r) && Doze(s, s', r)
  {
  }

  lemma IrqQuiet(s: State, c: nat, x: IrqStep)
    requires Shape(s) && c < |s.cat| && HandlerOk(s, c) && IrqNext(s, c, x).Some?
    ensures Shape(IrqNext(s, c, x).value) && Quiet(s, IrqNext(s, c, x).value, c, -1, Handle(c))
  {
  }

  predicate IsThread(step: Step) {
    !step.Sched? && !step.Interrupt? && !step.Rouse?
  }

  lemma ThreadQuiet(s: State, step: Step, r: nat)
    requires Inv(s) && Next(s, step).Some? && IsThread(step) && s.cat[step.c] == InProc(r)
    ensures var s' := Next(s, step).value; Shape(s') && Quiet(s, s', step.c, r, r) && Doze(s, s', r)
  {
    Here(s, step.c, r);
    assert HeldBy(r, LkOf(s.at[r]), s.lk);
    match step
    case Swtch(c, x) => SwitchQuiet(s, c, r, x);
    case Sleeping(c, x) => SleepQuiet(s, c, r, x);
    case Wakeup(c, x) => WakeQuiet(s, c, r, x);
    case Waiting(c, x) => WaitQuiet(s, c, r, x);
    case Forking(c, x) =>
      assert MakerOk(s.st, s.at, s.maker, r);
      ForkQuiet(s, c, r, x);
    case Reparenting(c, x) => ReparentQuiet(s, c, r, x);
    case Exiting(c, x) => ExitQuiet(s, c, r, x);
  }

  lemma HandlersStay(s: State, step: Step)
    requires Shape(s) && Next(s, step).Some? && !step.Interrupt?
    ensures Next(s, step).value.irq == s.irq
  {
  }

  // ---------------------------------------------- the handlers, over a step

  ghost predicate Good(s: State) {
    && Inv(s) && (forall c {:trigger HandlerOk(s, c)} :: 0 <= c < |s.cat| ==> HandlerOk(s, c))
    && (forall p {:trigger WaitChan(s.at[p], p)} :: 0 <= p < |s.at| ==> WaitChan(s.at[p], p))
  }

  lemma ChanKept(s: State, s': State, d: int, r: int, v: int)
    requires Good(s) && Shape(s') && Quiet(s, s', d, r, v) && r < |s.st| && (0 <= r ==> Doze(s, s', r))
    ensures forall p {:trigger WaitChan(s'.at[p], p)} :: 0 <= p < |s'.at| ==> WaitChan(s'.at[p], p)
  {
    forall p | 0 <= p < |s'.at| ensures WaitChan(s'.at[p], p) {
      assert WaitChan(s.at[p], p);
      if p != r {
        assert Bystander(s.st[p], s.at[p], s'.st[p], s'.at[p]);
      }
    }
  }

  // The handler on CPU c, when something else takes a step.
  lemma HandlerKeeps(s: State, s': State, c: nat, d: int, r: int, v: int)
    requires Inv(s) && c < |s.cat| && HandlerOk(s, c) && Shape(s') && Quiet(s, s', d, r, v)
    requires c != d && v != Handle(c) && r < |s.st|
    requires 0 <= r ==> s.cat[c] != InProc(r) && Doze(s, s', r)
    ensures HandlerOk(s', c)
  {
    var h := s.irq[c];
    assert s'.irq[c] == h && s'.cat[c] == s.cat[c];
    if !h.Off? && s.cat[c].InProc? {
      Here(s, c, s.cat[c].p);
      assert Bystander(s.st[s.cat[c].p], s.at[s.cat[c].p], s'.st[s.cat[c].p], s'.at[s.cat[c].p]);
    }
    if h.Scans? {
      forall p | 0 <= p < h.k ensures !Dozing(s'.st[p], s'.at[p], h.chan, h.l) {
        StillAwake(s, s', d, r, v, p, h.chan, h.l);
      }
    }
  }

  lemma StillAwake(s: State, s': State, d: int, r: int, v: int, p: nat, chan: int, l: nat)
    requires Shape(s) && Shape(s') && Quiet(s, s', d, r, v) && p < |s.st| && l < |s.lk| && r < |s.st|
    requires 0 <= r ==> Doze(s, s', r) && s.lk[l] != r
    requires !Dozing(s.st[p], s.at[p], chan, l)
    ensures !Dozing(s'.st[p], s'.at[p], chan, l)
  {
    if p != r {
      assert Bystander(s.st[p], s.at[p], s'.st[p], s'.at[p]);
    }
    if Calm(s.st[p], s.at[p], s'.st[p], s'.at[p]) && Dozing(s'.st[p], s'.at[p], chan, l) {
      CalmDozing(s.st[p], s.at[p], s'.st[p], s'.at[p], chan, l);
    }
  }

  // The handler on CPU c takes a step itself.
  lemma HandlerMoves(s: State, c: nat, x: IrqStep)
    requires Inv(s) && c < |s.cat| && HandlerOk(s, c) && IrqNext(s, c, x).Some? && Shape(IrqNext(s, c, x).value)
    ensures HandlerOk(IrqNext(s, c, x).value, c)
  {
    if x.IrqOne? {
      HandlerPasses(s, c);
    }
  }

  lemma HandlerPasses(s: State, c: nat)
    requires Inv(s) && c < |s.cat| && HandlerOk(s, c) && IrqNext(s, c, IrqOne).Some?
    requires Shape(IrqNext(s, c, IrqOne).value)
    ensures HandlerOk(IrqNext(s, c, IrqOne).value, c)
  {
    var h, s' := s.irq[c], IrqNext(s, c, IrqOne).value;
    CpuIs(s.cat, s.cproc, s.where, s.plock, c);
    RowFacts(s, h.k);
    assert ChanOk(s.st[h.k], s.at[h.k], s.chan[h.k]);
    forall p | 0 <= p < h.k + 1 ensures !Dozing(s'.st[p], s'.at[p], h.chan, h.l) {
      if p < h.k {
        assert !Dozing(s.st[p], s.at[p], h.chan, h.l);
      }
    }
  }

  lemma InvStep(s: State, step: Step)
    requires Good(s) && Next(s, step).Some?
    ensures Good(Next(s, step).value)
  {
    match step
    case Sched(c, x) => SchedGood(s, c, x);
    case Interrupt(c, x) => InterruptGood(s, c, x);
    case Rouse(k) => RouseGood(s, k);
    case _ => ThreadGood(s, step, s.cat[step.c].p);
  }

  lemma SchedGood(s: State, c: nat, x: SchedStep)
    requires Good(s) && Next(s, Sched(c, x)).Some?
    ensures Good(Next(s, Sched(c, x)).value)
  {
    var s' := Next(s, Sched(c, x)).value;
    SchedCore(s, c, x);
    SchedRest(s, c, x);
    SchedQuiet(s, c, x);
    ChanKept(s, s', c, -1, -1);
    HandlersStay(s, Sched(c, x));
    forall d | 0 <= d < |s'.cat| ensures HandlerOk(s', d) {
      assert HandlerOk(s, d);
      if d != c {
        HandlerKeeps(s, s', d, c, -1, -1);
      }
    }
  }

  lemma ThreadGood(s: State, step: Step, r: nat)
    requires Good(s) && Next(s, step).Some? && IsThread(step) && s.cat[step.c] == InProc(r)
    ensures Good(Next(s, step).value)
  {
    var s' := Next(s, step).value;
    ThreadStep(s, step, step.c);
    ThreadQuiet(s, step, r);
    HandlersStay(s, step);
    OneStack(s, step.c, step.c, r);
    ChanKept(s, s', step.c, r, r);
    forall d | 0 <= d < |s'.cat| ensures HandlerOk(s', d) {
      assert HandlerOk(s, d);
      if d != step.c {
        OneStack(s, step.c, d, r);
        HandlerKeeps(s, s', d, step.c, r, r);
      }
    }
  }

  lemma OneStack(s: State, c: nat, d: nat, r: nat)
    requires Core(s) && c < |s.cat| && d < |s.cat| && s.cat[c] == InProc(r)
    ensures r < |s.st| && (c != d ==> s.cat[d] != InProc(r))
  {
    CpuIs(s.cat, s.cproc, s.where, s.plock, c);
    CpuIs(s.cat, s.cproc, s.where, s.plock, d);
  }

  lemma InterruptGood(s: State, c: nat, x: IrqStep)
    requires Good(s) && Next(s, Interrupt(c, x)).Some?
    ensures Good(Next(s, Interrupt(c, x)).value)
  {
    var s' := Next(s, Interrupt(c, x)).value;
    assert HandlerOk(s, c);
    HandlerStep(s, c, x);
    IrqQuiet(s, c, x);
    HandlerMoves(s, c, x);
    ChanKept(s, s', c, -1, Handle(c));
    forall d | 0 <= d < |s'.cat| && d != c ensures HandlerOk(s', d) {
      assert HandlerOk(s, d);
      HandlerKeeps(s, s', d, c, -1, Handle(c));
    }
  }

  lemma RouseGood(s: State, k: nat)
    requires Good(s) && Next(s, Rouse(k)).Some?
    ensures Good(Next(s, Rouse(k)).value)
  {
    var s' := Next(s, Rouse(k)).value;
    RouseInv(s, k, s.chan[k]);
    ChanKept(s, s', -1, -1, -1);
    forall d | 0 <= d < |s'.cat| ensures HandlerOk(s', d) {
      assert HandlerOk(s, d);
      HandlerKeeps(s, s', d, -1, -1, -1);
    }
  }

  // ------------------------------------------------------------ every run

  // userinit() has made init runnable; every CPU enters scheduler().
  ghost predicate Init(s: State) {
    && Shape(s) && s.st[INIT] == RUNNABLE && s.at[INIT] == Forkret
    && (forall p :: 1 <= p < |s.st| ==> s.st[p] == UNUSED && s.at[p] == Dormant)
    && (forall p :: 0 <= p < |s.st| ==> s.plock[p] == -1 && s.where[p] == -1 && s.parent[p] == -1)
    && (forall c :: 0 <= c < |s.cat| ==> s.cat[c] == Idle && s.cproc[c] == -1 && s.irq[c] == Off)
    && (forall l :: 0 <= l < |s.lk| ==> s.lk[l] == -1)
  }

  lemma InvInit(s: State)
    requires Init(s)
    ensures Good(s)
  {
  }

  // s' is reached from s by these steps.
  ghost predicate Reaches(s: State, steps: seq<Step>, s': State)
    requires Shape(s)
    decreases |steps|
  {
    Shape(s') &&
    if steps == [] then s' == s
    else Next(s, steps[0]).Some? && Shape(Next(s, steps[0]).value) && Reaches(Next(s, steps[0]).value, steps[1..], s')
  }

  lemma {:induction false} InvRun(s: State, steps: seq<Step>, s': State)
    requires Good(s) && Reaches(s, steps, s')
    ensures Good(s')
    decreases |steps|
  {
    if steps != [] {
      InvStep(s, steps[0]);
      InvRun(Next(s, steps[0]).value, steps[1..], s');
    }
  }

  // --------------------------------------------------------- the guarantees

  // When p->lock is free, p is RUNNING exactly when some CPU has it as its process;
  // and no two CPUs ever have the same process, let alone run on its kernel stack.
  lemma OneCpuPerProcess(s0: State, steps: seq<Step>, s: State, p: nat)
    requires Init(s0) && Reaches(s0, steps, s) && p < |s.st|
    ensures s.plock[p] == -1 ==> (s.st[p] == RUNNING <==> exists c :: 0 <= c < |s.cproc| && s.cproc[c] == p)
    ensures forall c, d :: 0 <= c < |s.cproc| && 0 <= d < |s.cproc| && s.cproc[c] == s.cproc[d] == p ==> c == d
    ensures forall c, d :: 0 <= c < |s.cat| && 0 <= d < |s.cat| && s.cat[c] == s.cat[d] == InProc(p) ==> c == d
  {
    InvInit(s0);
    InvRun(s0, steps, s);
    assert ProcOk(s.st[p], s.at[p], s.where[p], s.plock[p]) && LinkOk(p, s.where[p], s.plock[p], s.cat);
    forall c | 0 <= c < |s.cat| && s.cproc[c] == p
      ensures s.where[p] == c || (s.where[p] == -1 && s.plock[p] == c)
    {
      CpuIs(s.cat, s.cproc, s.where, s.plock, c);
    }
    forall c | 0 <= c < |s.cat| && s.cat[c] == InProc(p) ensures s.where[p] == c {
      CpuIs(s.cat, s.cproc, s.where, s.plock, c);
    }
    if s.where[p] >= 0 {
      CpuIs(s.cat, s.cproc, s.where, s.plock, s.where[p]);
      assert s.cproc[s.where[p]] == p;
    }
  }

  // A wakeup(chan) under lock l has come to its end: in a process, in an interrupt handler,
  // or in the exit() or reparent() of a process, under wait_lock.
  ghost predicate WakeupDone(s: State, chan: int, l: nat)
    requires Shape(s)
  {
    || (exists w :: 0 <= w < |s.st| && s.at[w] == Waking(chan, l, |s.st|))
    || (exists c :: 0 <= c < |s.irq| && s.irq[c] == Scans(chan, l, |s.st|))
    || (l == WAIT_LOCK && exists w :: 0 <= w < |s.st| && s.at[w] == ExitWake(|s.st|) && s.parent[w] == chan)
    || (l == WAIT_LOCK && chan == INIT && exists w :: 0 <= w < |s.st| && s.at[w].ReparentWake? && s.at[w].j == |s.st|)
  }

  // Then nobody who let go of l in sleep(chan, l) is still asleep.
  lemma NoLostWakeup(s0: State, steps: seq<Step>, s: State, chan: int, l: nat, p: nat)
    requires Init(s0) && Reaches(s0, steps, s) && WakeupDone(s, chan, l) && p < |s.st|
    ensures !Dozing(s.st[p], s.at[p], chan, l)
  {
    InvInit(s0);
    InvRun(s0, steps, s);
    AllPassed(s, chan, l, p);
  }

  lemma AllPassed(s: State, chan: int, l: nat, p: nat)
    requires Good(s) && WakeupDone(s, chan, l) && p < |s.st|
    ensures !Dozing(s.st[p], s.at[p], chan, l)
  {
    if w :| 0 <= w < |s.st| && s.at[w] == Waking(chan, l, |s.st|) {
      assert Passed(s.st, s.at, s.at[w]);
    } else if c :| 0 <= c < |s.irq| && s.irq[c] == Scans(chan, l, |s.st|) {
      assert HandlerOk(s, c);
    } else if w :| 0 <= w < |s.st| && s.at[w] == ExitWake(|s.st|) && s.parent[w] == chan {
      assert WaitChan(s.at[p], p) && HeldBy(w, LkOf(s.at[w]), s.lk);
    } else {
      var w :| 0 <= w < |s.st| && s.at[w].ReparentWake? && s.at[w].j == |s.st|;
      assert WaitChan(s.at[p], p) && HeldBy(w, LkOf(s.at[w]), s.lk);
    }
  }

  // And the only way out of that sleep is to be made RUNNABLE.
  lemma WokenIsRunnable(s: State, step: Step, p: nat, chan: int, l: nat)
    requires Good(s) && Next(s, step).Some? && p < |s.st| && Dozing(s.st[p], s.at[p], chan, l)
    ensures var s' := Next(s, step).value;
            |s'.st| == |s'.at| == |s.st| && (Dozing(s'.st[p], s'.at[p], chan, l) || s'.st[p] == RUNNABLE)
  {
    assert ProcOk(s.st[p], s.at[p], s.where[p], s.plock[p]);
    match step
    case Sched(c, x) => SchedQuiet(s, c, x);
    case Interrupt(c, x) => assert HandlerOk(s, c); IrqQuiet(s, c, x);
    case Rouse(k) =>
    case _ =>
      var r := s.cat[step.c].p;
      Here(s, step.c, r);
      ThreadQuiet(s, step, r);
      if r == p {
        OwnStep(s, step, p, chan, l);
      } else {
        assert Bystander(s.st[p], s.at[p], Next(s, step).value.st[p], Next(s, step).value.at[p]);
      }
  }

  // From a state where p sleeps on chan to one where it does not, the run passes
  // through one where p is RUNNABLE.
  lemma {:induction false} MadeRunnable(s: State, steps: seq<Step>, s': State, p: nat, chan: int,
      l: nat) returns (k: nat, mid: State)
    requires Good(s) && Reaches(s, steps, s') && p < |s.st| && p < |s'.st|
    requires Dozing(s.st[p], s.at[p], chan, l) && !Dozing(s'.st[p], s'.at[p], chan, l)
    ensures k <= |steps| && Reaches(s, steps[..k], mid) && p < |mid.st| && mid.st[p] == RUNNABLE
    decreases |steps|
  {
    var next := Next(s, steps[0]).value;
    InvStep(s, steps[0]);
    WokenIsRunnable(s, steps[0], p, chan, l);
    if next.st[p] == RUNNABLE {
      k, mid := 1, next;
      assert steps[..1][1..] == [];
    } else {
      k, mid := MadeRunnable(next, steps[1..], s', p, chan, l);
      assert steps[..k + 1][1..] == steps[1..][..k];
      k := k + 1;
    }
  }

  // A process that let go of lock l in sleep(chan, l) has been made RUNNABLE by the
  // time that a later wakeup(chan) under l is done.
  lemma WakeupReachesSleeper(s0: State, before: seq<Step>, s: State, after: seq<Step>, s': State, p: nat, chan: int,
      l: nat)
      returns (k: nat, mid: State)
    requires Init(s0) && Reaches(s0, before, s) && Reaches(s, after, s') && p < |s.st| && p < |s'.st|
    requires Dozing(s.st[p], s.at[p], chan, l) && WakeupDone(s', chan, l)
    ensures k <= |after| && Reaches(s, after[..k], mid) && p < |mid.st| && mid.st[p] == RUNNABLE
  {
    InvInit(s0);
    InvRun(s0, before, s);
    InvRun(s, after, s');
    AllPassed(s', chan, l, p);
    k, mid := MadeRunnable(s, after, s', p, chan, l);
  }

  lemma OwnStep(s: State, step: Step, p: nat, chan: int, l: nat)
    requires Shape(s) && Next(s, step).Some? && IsThread(step) && p < |s.st| && s.at[p] == Window(chan, l)
    requires step.c < |s.cat| && s.cat[step.c] == InProc(p)
    ensures var s' := Next(s, step).value;
            |s'.st| == |s'.at| == |s.st| && Dozing(s'.st[p], s'.at[p], chan, l)
  {
  }

  // While wait_lock is free, no process, init included, is asleep in wait() with a ZOMBIE child.
  lemma NoZombieForgotten(s0: State, steps: seq<Step>, s: State, p: nat, q: nat)
    requires Init(s0) && Reaches(s0, steps, s) && p < |s.st| && q < |s.st|
    requires s.lk[WAIT_LOCK] == -1 && s.parent[q] == p && s.st[q] == ZOMBIE
    ensures !(s.at[p] == Asleep(p, WAIT_LOCK) && s.st[p] == SLEEPING)
  {
    InvInit(s0);
    InvRun(s0, steps, s);
    NobodyStarves(s.st, s.at, s.parent, s.lk);
    assert !Starves(s.st, s.at, s.parent, q);
  }

  // sched() never panics: a process about to switch holds its own lock and no other.
  lemma SchedLocks(s0: State, steps: seq<Step>, s: State, c: nat, p: nat)
    requires Init(s0) && Reaches(s0, steps, s) && c < |s.cat| && p < |s.st| && s.cat[c] == InProc(p)
    requires s.at[p].YieldHeld? || s.at[p].Window? || s.at[p].Dying?
    ensures s.plock[p] == c && forall l :: 0 <= l < |s.lk| ==> s.lk[l] != p
  {
    InvInit(s0);
    InvRun(s0, steps, s);
    Here(s, c, p);
    forall l | 0 <= l < |s.lk| ensures s.lk[l] != p {
      assert HolderOk(l, s.lk[l], s.at);
    }
  }
}
