// Processes, the schedulers of several CPUs and interrupt handlers as interleaved
// steps. Every spinlock has an owner: p->lock a CPU, the other locks a process or the
// handler on a CPU. Lock 0 is wait_lock, process 0 is init.
module ProcSpec {
  import opened Common

  datatype PState = UNUSED | USED | SLEEPING | RUNNABLE | RUNNING | ZOMBIE

  const WAIT_LOCK := 0
  const INIT := 0

  // How far the kernel thread of a process has come.
  datatype At =
    | Dormant                      // no thread yet
    | Forkret                      // first run, still holding p->lock
    | Run                          // holds no lock
    | ForkPub(child: nat)          // fork(): the child has no parent yet
    | ForkRun(child: nat)          // fork(): the child is not runnable yet
    | YieldHeld(next: At)          // yield(): took p->lock
    | Yielded(next: At)            // yield(): in sched()
    | Crit(l: nat)                 // holds lock l
    | Waking(chan: int, l: nat, k: nat)   // wakeup(chan) under lock l, at process k
    | SleepHeld(chan: int, l: nat) // sleep(): holds lock l and p->lock
    | Window(chan: int, l: nat)    // sleep(): let go of lock l
    | Asleep(chan: int, l: nat)    // sleep(): in sched()
    | Reacquire(l: nat)            // sleep(): about to take lock l again
    | WaitScan(k: nat, have: bool) // wait(): at process k
    | Reparent(k: nat)             // exit(): at process k
    | ReparentWake(k: nat, j: nat) // exit(): wakeup(initproc) at process j
    | ExitWake(j: nat)             // exit(): wakeup(p->parent) at process j
    | ExitHeld                     // exit(): took p->lock
    | ExitZombie                   // exit(): set ZOMBIE
    | Dying                        // exit(): let go of wait_lock
    | Dead                         // exit(): in sched(), never to return

  // What a CPU executes: scheduler() at some point, or the thread of p.
  datatype CpuAt =
    | Idle
    | Look(p: nat)      // holds p->lock, has not tested p->state
    | InProc(p: nat)
    | Back(p: nat)      // swtch() returned, c->proc still p
    | Cleared(p: nat)   // c->proc is 0, p->lock still held

  // A device or timer interrupt on a CPU: its handler takes a lock and calls wakeup().
  // The CPU does nothing else meanwhile.
  datatype Handler =
    | Off
    | Entered                           // holds no lock
    | Holds(l: nat)                     // holds lock l
    | Scans(chan: int, l: nat, k: nat)  // wakeup(chan) under lock l, at process k

  // What lk says when the handler on CPU c holds a lock.
  function Handle(c: nat): int {
    -2 - c
  }

  // Columns of the process table and of the cpus table; -1 stands for no one.
  datatype State = State(
    st: seq<PState>, chan: seq<int>, parent: seq<int>, at: seq<At>,
    plock: seq<int>,     // CPU that holds p->lock
    where: seq<int>,     // CPU that runs on the kernel stack of p
    maker: seq<int>,     // process that is forking p
    cproc: seq<int>, cat: seq<CpuAt>, irq: seq<Handler>,
    lk: seq<int>)        // process or handler that holds each other lock

  datatype SchedStep = LookAt(p: nat) | Skip | Switch | ClearProc | Release

  datatype SwitchStep = Resume | YieldAcquire | YieldSwitch | SleepSwitch | ExitSwitch

  datatype SleepStep =
    | LkAcquire(l: nat) | LkRelease
    | SleepAcquire(chan: int) | SleepRelease | Reacquired

  datatype WakeStep = WakeBegin(chan: int) | WakeOne | WakeEnd

  datatype WaitStep = WaitBegin | WaitChild(fault: bool) | WaitLeave | WaitSleep | WaitNoblock(k: nat)

  datatype ForkStep = ForkAlloc(k: nat) | ForkFail | ForkParent | ForkStart

  datatype ReparentStep = ReparentOne | ReparentWakeOne | ReparentWakeEnd | ReparentEnd

  datatype ExitStep = ExitBegin | ExitWakeOne | ExitLock | ExitMark | ExitRelease

  datatype IrqStep = IrqEnter | IrqAcquire(l: nat) | IrqWake(chan: int) | IrqOne | IrqDone | IrqRelease | IrqLeave

  // Steps of CPU c, and kill() that rouses process k.
  datatype Step =
    | Sched(c: nat, sched: SchedStep)
    | Swtch(c: nat, swtch: SwitchStep)
    | Sleeping(c: nat, sleep: SleepStep)
    | Wakeup(c: nat, wake: WakeStep)
    | Waiting(c: nat, wait: WaitStep)
    | Forking(c: nat, fork: ForkStep)
    | Reparenting(c: nat, reparent: ReparentStep)
    | Exiting(c: nat, exit: ExitStep)
    | Interrupt(c: nat, irq: IrqStep)
    | Rouse(k: nat)

  predicate Shape(s: State) {
    && |s.st| == |s.chan| == |s.parent| == |s.at| == |s.plock| == |s.where| == |s.maker| >= 1
    && |s.cproc| == |s.cat| == |s.irq| && |s.lk| >= 1
  }

  // ------------------------------------------------------ pieces of a step

  function Move(s: State, p: nat, a: At): State
    requires p < |s.at|
  {
    s.(at := s.at[p := a])
  }

  // Process p goes on at a and takes (v == p) or drops (v == -1) lock l.
  function MoveLk(s: State, p: nat, a: At, l: nat, v: int): State
    requires p < |s.at| && l < |s.lk|
  {
    s.(at := s.at[p := a], lk := s.lk[l := v])
  }

  function MoveP(s: State, p: nat, a: At, v: int): State
    requires p < |s.at| && p < |s.plock|
  {
    s.(at := s.at[p := a], plock := s.plock[p := v])
  }

  // The test and the assignment in wakeup(), kill() and the like.
  function WakeState(st: PState, chan: int, target: int): PState {
    if st == SLEEPING && chan == target then RUNNABLE else st
  }

  // One round of wakeup(target) by process p, which skips itself.
  function Woken(s: State, p: nat, k: nat, target: int): State
    requires Shape(s) && k < |s.st|
  {
    if k == p then s else s.(st := s.st[k := WakeState(s.st[k], s.chan[k], target)])
  }

  function Freed(s: State, k: nat): State
    requires Shape(s) && k < |s.st|
  {
    s.(st := s.st[k := UNUSED], parent := s.parent[k := -1], chan := s.chan[k := -1])
  }

  // sched(): p leaves CPU c, which goes on in scheduler().
  function SwitchOut(s: State, c: nat, p: nat, st: PState, a: At): State
    requires Shape(s) && p < |s.st| && c < |s.cat|
  {
    s.(st := s.st[p := st], at := s.at[p := a], where := s.where[p := -1], cat := s.cat[c := Back(p)])
  }

  // ------------------------------------------------------------- the steps

  function SchedNext(s: State, c: nat, step: SchedStep): Option<State>
    requires Shape(s) && c < |s.cat|
  {
    match step
    case LookAt(p) =>
      if s.cat[c].Idle? && p < |s.st| && s.plock[p] == -1
      then Some(s.(plock := s.plock[p := c], cat := s.cat[c := Look(p)])) else None
    case Skip =>
      if s.cat[c].Look? && s.cat[c].p < |s.st| && s.st[s.cat[c].p] != RUNNABLE
      then Some(s.(plock := s.plock[s.cat[c].p := -1], cat := s.cat[c := Idle])) else None
    case Switch =>
      if s.cat[c].Look? && s.cat[c].p < |s.st| && s.st[s.cat[c].p] == RUNNABLE then
        var p := s.cat[c].p;
        Some(s.(st := s.st[p := RUNNING], cproc := s.cproc[c := p], cat := s.cat[c := InProc(p)], where := s.where[p := c]))
      else None
    case ClearProc =>
      if s.cat[c].Back? then Some(s.(cproc := s.cproc[c := -1], cat := s.cat[c := Cleared(s.cat[c].p)])) else None
    case Release =>
      if s.cat[c].Cleared? && s.cat[c].p < |s.st|
      then Some(s.(plock := s.plock[s.cat[c].p := -1], cat := s.cat[c := Idle])) else None
  }

  // A timer interrupt can make a process yield wherever it holds no lock.
  predicate Preemptible(a: At) {
    a.Run? || a.Reacquire? || a.ForkPub? || a.ForkRun?
  }

  function SwitchNext(s: State, c: nat, p: nat, step: SwitchStep): Option<State>
    requires Shape(s) && c < |s.cat| && p < |s.st|
  {
    var a := s.at[p];
    match step
    case Resume =>
      if a.Forkret? then Some(MoveP(s, p, Run, -1))
      else if a.Yielded? then Some(MoveP(s, p, a.next, -1))
      else if a.Asleep? then Some(MoveP(s, p, Reacquire(a.l), -1).(chan := s.chan[p := -1]))
      else None
    case YieldAcquire =>
      if Preemptible(a) && s.plock[p] == -1 then Some(MoveP(s, p, YieldHeld(a), c)) else None
    case YieldSwitch =>
      if a.YieldHeld? then Some(SwitchOut(s, c, p, RUNNABLE, Yielded(a.next))) else None
    case SleepSwitch =>
      if a.Window? then Some(SwitchOut(s, c, p, SLEEPING, Asleep(a.chan, a.l)).(chan := s.chan[p := a.chan])) else None
    case ExitSwitch =>
      if a.Dying? then Some(SwitchOut(s, c, p, s.st[p], Dead)) else None
  }

  function SleepNext(s: State, c: nat, p: nat, step: SleepStep): Option<State>
    requires Shape(s) && c < |s.cat| && p < |s.st|
  {
    var a := s.at[p];
    match step
    case LkAcquire(l) =>
      if a.Run? && 1 <= l < |s.lk| && s.lk[l] == -1 then Some(MoveLk(s, p, Crit(l), l, p)) else None
    case LkRelease =>
      if a.Crit? && a.l < |s.lk| then Some(MoveLk(s, p, Run, a.l, -1)) else None
    case SleepAcquire(ch) =>
      if a.Crit? && s.plock[p] == -1 then Some(MoveP(s, p, SleepHeld(ch, a.l), c)) else None
    case SleepRelease =>
      if a.SleepHeld? && a.l < |s.lk| then Some(MoveLk(s, p, Window(a.chan, a.l), a.l, -1)) else None
    case Reacquired =>
      if a.Reacquire? && a.l < |s.lk| && s.lk[a.l] == -1
      then Some(MoveLk(s, p, if a.l == WAIT_LOCK then WaitScan(0, false) else Crit(a.l), a.l, p)) else None
  }

  function WakeNext(s: State, c: nat, p: nat, step: WakeStep): Option<State>
    requires Shape(s) && c < |s.cat| && p < |s.st|
  {
    var a := s.at[p];
    match step
    case WakeBegin(ch) =>
      if a.Crit? then Some(Move(s, p, Waking(ch, a.l, 0))) else None
    case WakeOne =>
      if a.Waking? && a.k < |s.st| && (a.k == p || s.plock[a.k] == -1)
      then Some(Move(Woken(s, p, a.k, a.chan), p, Waking(a.chan, a.l, a.k + 1))) else None
    case WakeEnd =>
      if a.Waking? && a.k == |s.st| then Some(Move(s, p, Crit(a.l))) else None
  }

  // wait() and, as one step, wait_noblock().
  function WaitNext(s: State, c: nat, p: nat, step: WaitStep): Option<State>
    requires Shape(s) && c < |s.cat| && p < |s.st|
  {
    var a := s.at[p];
    match step
    case WaitBegin =>
      if a.Run? && s.lk[WAIT_LOCK] == -1 then Some(MoveLk(s, p, WaitScan(0, false), WAIT_LOCK, p)) else None
    case WaitChild(fault) =>
      if !(a.WaitScan? && a.k < |s.st|) then None
      else if s.parent[a.k] != p then Some(Move(s, p, WaitScan(a.k + 1, a.have)))
      else if s.plock[a.k] != -1 then None
      else if s.st[a.k] != ZOMBIE then Some(Move(s, p, WaitScan(a.k + 1, true)))
      else Some(MoveLk(if fault then s else Freed(s, a.k), p, Run, WAIT_LOCK, -1))
    case WaitLeave =>   // no children, or killed
      if a.WaitScan? && a.k == |s.st| then Some(MoveLk(s, p, Run, WAIT_LOCK, -1)) else None
    case WaitSleep =>
      if a.WaitScan? && a.k == |s.st| && a.have && s.plock[p] == -1
      then Some(MoveP(s, p, SleepHeld(p, WAIT_LOCK), c)) else None
    case WaitNoblock(k) =>
      if a.Run? && k < |s.st| && s.parent[k] == p && s.st[k] == ZOMBIE then Some(Freed(s, k)) else None
  }

  function ForkNext(s: State, c: nat, p: nat, step: ForkStep): Option<State>
    requires Shape(s) && c < |s.cat| && p < |s.st|
  {
    var a := s.at[p];
    match step
    case ForkAlloc(k) =>
      if a.Run? && k < |s.st| && s.st[k] == UNUSED && s.plock[k] == -1 && k != p
      then Some(Move(Move(s, k, Dormant), p, ForkPub(k)).(st := s.st[k := USED], maker := s.maker[k := p])) else None
    case ForkFail =>
      if a.ForkPub? && a.child < |s.st| then Some(Move(Freed(s, a.child), p, Run)) else None
    case ForkParent =>
      if a.ForkPub? && a.child < |s.st| && s.lk[WAIT_LOCK] == -1
      then Some(Move(s, p, ForkRun(a.child)).(parent := s.parent[a.child := p])) else None
    case ForkStart =>
      if a.ForkRun? && a.child < |s.st| && s.plock[a.child] == -1 && a.child != p
      then Some(Move(Move(s, a.child, Forkret), p, Run).(st := s.st[a.child := RUNNABLE])) else None
  }

  function ReparentNext(s: State, c: nat, p: nat, step: ReparentStep): Option<State>
    requires Shape(s) && c < |s.cat| && p < |s.st|
  {
    var a := s.at[p];
    match step
    case ReparentOne =>
      if !(a.Reparent? && a.k < |s.st|) then None
      else if s.parent[a.k] != p then Some(Move(s, p, Reparent(a.k + 1)))
      else Some(Move(s, p, ReparentWake(a.k, 0)).(parent := s.parent[a.k := INIT]))
    case ReparentWakeOne =>
      if a.ReparentWake? && a.j < |s.st| && (a.j == p || s.plock[a.j] == -1)
      then Some(Move(Woken(s, p, a.j, INIT), p, ReparentWake(a.k, a.j + 1))) else None
    case ReparentWakeEnd =>
      if a.ReparentWake? && a.j == |s.st| then Some(Move(s, p, Reparent(a.k + 1))) else None
    case ReparentEnd =>
      if a.Reparent? && a.k == |s.st| then Some(Move(s, p, ExitWake(0))) else None
  }

  function ExitNext(s: State, c: nat, p: nat, step: ExitStep): Option<State>
    requires Shape(s) && c < |s.cat| && p < |s.st|
  {
    var a := s.at[p];
    match step
    case ExitBegin =>
      if a.Run? && p != INIT && s.lk[WAIT_LOCK] == -1 then Some(MoveLk(s, p, Reparent(0), WAIT_LOCK, p)) else None
    case ExitWakeOne =>
      if a.ExitWake? && a.j < |s.st| && (a.j == p || s.plock[a.j] == -1)
      then Some(Move(Woken(s, p, a.j, s.parent[p]), p, ExitWake(a.j + 1))) else None
    case ExitLock =>
      if a.ExitWake? && a.j == |s.st| && s.plock[p] == -1 then Some(MoveP(s, p, ExitHeld, c)) else None
    case ExitMark =>
      if a.ExitHeld? then Some(Move(s, p, ExitZombie).(st := s.st[p := ZOMBIE])) else None
    case ExitRelease =>
      if a.ExitZombie? then Some(MoveLk(s, p, Dying, WAIT_LOCK, -1)) else None
  }

  // Interrupts are on in the idle loop of scheduler() and wherever the thread holds no lock.
  predicate Interruptible(s: State, c: nat)
    requires Shape(s) && c < |s.cat|
  {
    s.cat[c].Idle? || (s.cat[c].InProc? && s.cat[c].p < |s.st| && Preemptible(s.at[s.cat[c].p]))
  }

  // wakeup() skips the process that was interrupted.
  function IrqNext(s: State, c: nat, step: IrqStep): Option<State>
    requires Shape(s) && c < |s.cat|
  {
    var h := s.irq[c];
    match step
    case IrqEnter =>
      if h.Off? && Interruptible(s, c) then Some(s.(irq := s.irq[c := Entered])) else None
    case IrqAcquire(l) =>
      if h.Entered? && 1 <= l < |s.lk| && s.lk[l] == -1
      then Some(s.(irq := s.irq[c := Holds(l)], lk := s.lk[l := Handle(c)])) else None
    case IrqWake(ch) =>
      if h.Holds? then Some(s.(irq := s.irq[c := Scans(ch, h.l, 0)])) else None
    case IrqOne =>
      if h.Scans? && h.k < |s.st| && (h.k == s.cproc[c] || s.plock[h.k] == -1)
      then Some(s.(irq := s.irq[c := Scans(h.chan, h.l, h.k + 1)],
                   st := if h.k == s.cproc[c] then s.st else s.st[h.k := WakeState(s.st[h.k], s.chan[h.k], h.chan)]))
      else None
    case IrqDone =>
      if h.Scans? && h.k == |s.st| then Some(s.(irq := s.irq[c := Holds(h.l)])) else None
    case IrqRelease =>
      if h.Holds? && h.l < |s.lk| then Some(s.(irq := s.irq[c := Entered], lk := s.lk[h.l := -1])) else None
    case IrqLeave =>
      if h.Entered? then Some(s.(irq := s.irq[c := Off])) else None
  }

  // CPU c executes the thread of a process, and no handler.
  predicate Runs(s: State, c: nat)
    requires Shape(s)
  {
    c < |s.cat| && s.cat[c].InProc? && s.cat[c].p < |s.st| && s.irq[c].Off?
  }

  function Next(s: State, step: Step): Option<State>
    requires Shape(s)
  {
    match step
    case Sched(c, x) => if c < |s.cat| && s.irq[c].Off? then SchedNext(s, c, x) else None
    case Swtch(c, x) => if Runs(s, c) then SwitchNext(s, c, s.cat[c].p, x) else None
    case Sleeping(c, x) => if Runs(s, c) then SleepNext(s, c, s.cat[c].p, x) else None
    case Wakeup(c, x) => if Runs(s, c) then WakeNext(s, c, s.cat[c].p, x) else None
    case Waiting(c, x) => if Runs(s, c) then WaitNext(s, c, s.cat[c].p, x) else None
    case Forking(c, x) => if Runs(s, c) then ForkNext(s, c, s.cat[c].p, x) else None
    case Reparenting(c, x) => if Runs(s, c) then ReparentNext(s, c, s.cat[c].p, x) else None
    case Exiting(c, x) => if Runs(s, c) then ExitNext(s, c, s.cat[c].p, x) else None
    case Interrupt(c, x) => if c < |s.cat| then IrqNext(s, c, x) else None
    case Rouse(k) =>
      if k < |s.st| && s.plock[k] == -1 && s.st[k] == SLEEPING then Some(s.(st := s.st[k := RUNNABLE])) else None
  }
}
