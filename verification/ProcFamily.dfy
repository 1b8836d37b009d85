// Parents and children: exit() leaves nobody behind, and whoever exits has a parent that can
// still call wait().
module ProcFamily {
  import opened Common
  import opened ProcSpec
  import opened ProcProof
  import opened ProcWait
  import opened ProcTheorems

  // Past reparent(): the process will not call wait() any more.
  predicate Past(a: At) {
    a.ExitWake? || a.ExitHeld? || a.ExitZombie? || a.Dying? || a.Dead?
  }

  predicate Rears(a: At) {
    !a.Dormant? && !Past(a)
  }

  predicate Lives(x: PState) {
    x == RUNNABLE || x == RUNNING || x == SLEEPING || x == ZOMBIE
  }

  function Base(a: At): At {
    if a.YieldHeld? || a.Yielded? then a.next else a
  }

  predicate Makes(a: At) {
    Base(a).ForkPub? || Base(a).ForkRun?
  }

  ghost predicate NoneBelow(parent: seq<int>, p: nat, k: nat) {
    forall q :: 0 <= q < |parent| && q < k ==> parent[q] != p
  }

  ghost predicate ChildOk(st: seq<PState>, at: seq<At>, parent: seq<int>, q: nat)
    requires |st| == |at| == |parent| && q < |st|
  {
    && -1 <= parent[q] < |st| && (parent[q] >= 0 ==> Rears(at[parent[q]]))
    && (st[q] == UNUSED ==> parent[q] == -1) && (q != INIT && Lives(st[q]) ==> parent[q] >= 0)
    && (st[q] == USED && parent[q] >= 0 ==> Base(at[parent[q]]) == ForkRun(q))
  }

  // What a process that forks or exits has done so far.
  ghost predicate RearerOk(parent: seq<int>, p: nat, a: At) {
    && (Base(a).ForkPub? ==> Base(a).child < |parent| && parent[Base(a).child] == -1)
    && (Base(a).ForkRun? ==> Base(a).child < |parent| && parent[Base(a).child] == p)
    && (a.Reparent? ==> NoneBelow(parent, p, a.k)) && (a.ReparentWake? ==> NoneBelow(parent, p, a.k + 1))
  }

  ghost predicate Kin(st: seq<PState>, at: seq<At>, parent: seq<int>) {
    && |st| == |at| == |parent| >= 1 && parent[INIT] == -1 && !at[INIT].Dormant? && !ExitPc(at[INIT])
    && (forall q {:trigger ChildOk(st, at, parent, q)} :: 0 <= q < |st| ==> ChildOk(st, at, parent, q))
    && (forall p {:trigger RearerOk(parent, p, at[p])} :: 0 <= p < |st| ==> RearerOk(parent, p, at[p]))
  }

  // -------------------------------------------------------------- one row

  lemma KinRow(st: seq<PState>, at: seq<At>, parent: seq<int>, p: nat, x: PState, a: At)
    requires Kin(st, at, parent) && p < |st| && (Rears(at[p]) ==> Rears(a)) && RearerOk(parent, p, a)
    requires (x == UNUSED ==> st[p] == UNUSED) && (Lives(x) ==> Lives(st[p])) && (x == USED ==> st[p] == USED)
    requires (Base(at[p]).ForkRun? ==> Base(a) == Base(at[p])) && (p == INIT ==> !ExitPc(a))
    ensures Kin(st[p := x], at[p := a], parent)
  {
    var st', at' := st[p := x], at[p := a];
    forall q | 0 <= q < |st| ensures ChildOk(st', at', parent, q) {
      assert ChildOk(st, at, parent, q);
    }
    forall r | 0 <= r < |st| ensures RearerOk(parent, r, at'[r]) {
      assert RearerOk(parent, r, at[r]);
    }
  }

  // The end of reparent(): nobody is left.
  lemma KinPast(st: seq<PState>, at: seq<At>, parent: seq<int>, p: nat)
    requires Kin(st, at, parent) && p < |st| && at[p] == Reparent(|st|)
    ensures Kin(st, at[p := ExitWake(0)], parent)
  {
    assert RearerOk(parent, p, at[p]);
    var at' := at[p := ExitWake(0)];
    forall q | 0 <= q < |st| ensures ChildOk(st, at', parent, q) {
      assert ChildOk(st, at, parent, q);
    }
    forall r | 0 <= r < |st| ensures RearerOk(parent, r, at'[r]) {
      assert RearerOk(parent, r, at[r]);
    }
  }

  // Whoever is being forked is USED.
  ghost predicate Making(st: seq<PState>, at: seq<At>) {
    && |st| == |at|
    && (forall r {:trigger Base(at[r])} :: 0 <= r < |st| && Makes(at[r]) ==>
          Base(at[r]).child < |st| && st[Base(at[r]).child] == USED)
  }

  // A child is handed to init.
  lemma KinAdopt(st: seq<PState>, at: seq<At>, parent: seq<int>, p: nat, k: nat)
    requires Kin(st, at, parent) && Making(st, at) && p < |st| && at[p] == Reparent(k) && k < |st| && parent[k] == p
    ensures Kin(st, at[p := ReparentWake(k, 0)], parent[k := INIT])
  {
    var at', parent' := at[p := ReparentWake(k, 0)], parent[k := INIT];
    assert ChildOk(st, at, parent, k) && RearerOk(parent, p, at[p]);
    forall q | 0 <= q < |st| ensures ChildOk(st, at', parent', q) {
      assert ChildOk(st, at, parent, q);
    }
    forall r | 0 <= r < |st| ensures RearerOk(parent', r, at'[r]) {
      assert RearerOk(parent, r, at[r]);
    }
  }

  // A dead child is reaped.
  lemma KinFreed(st: seq<PState>, at: seq<At>, parent: seq<int>, k: nat)
    requires Kin(st, at, parent) && Making(st, at) && k < |st| && k != INIT && !Rears(at[k]) && st[k] != USED
    ensures Kin(st[k := UNUSED], at, parent[k := -1])
  {
    var st', parent' := st[k := UNUSED], parent[k := -1];
    forall q | 0 <= q < |st| ensures ChildOk(st', at, parent', q) {
      assert ChildOk(st, at, parent, q);
    }
    forall r | 0 <= r < |st| ensures RearerOk(parent', r, at[r]) {
      assert RearerOk(parent, r, at[r]);
    }
  }

  // fork() takes a free slot,
  lemma KinAlloc(st: seq<PState>, at: seq<At>, parent: seq<int>, p: nat, k: nat)
    requires Kin(st, at, parent) && Making(st, at) && p < |st| && k < |st| && k != p && k != INIT && at[p] == Run
    requires st[k] == UNUSED && !Rears(at[k])
    ensures Kin(st[k := USED], at[k := Dormant][p := ForkPub(k)], parent)
  {
    var st', at' := st[k := USED], at[k := Dormant][p := ForkPub(k)];
    assert ChildOk(st, at, parent, k);
    forall q | 0 <= q < |st| ensures ChildOk(st', at', parent, q) {
      assert ChildOk(st, at, parent, q);
    }
    forall r | 0 <= r < |st| ensures RearerOk(parent, r, at'[r]) {
      assert RearerOk(parent, r, at[r]);
    }
  }

  // gives it back,
  lemma KinFail(st: seq<PState>, at: seq<At>, parent: seq<int>, p: nat, k: nat)
    requires Kin(st, at, parent) && p < |st| && k < |st| && k != p && k != INIT && at[p] == ForkPub(k)
    requires at[k] == Dormant && st[k] == USED
    requires forall r :: 0 <= r < |st| && r != p && Makes(at[r]) ==> Base(at[r]).child != k
    ensures Kin(st[k := UNUSED], at[p := Run], parent[k := -1])
  {
    var st', at', parent' := st[k := UNUSED], at[p := Run], parent[k := -1];
    assert RearerOk(parent, p, at[p]);
    forall q | 0 <= q < |st| ensures ChildOk(st', at', parent', q) {
      assert ChildOk(st, at, parent, q);
    }
    forall r | 0 <= r < |st| ensures RearerOk(parent', r, at'[r]) {
      assert RearerOk(parent, r, at[r]);
    }
  }

  // or becomes its parent
  lemma KinParent(st: seq<PState>, at: seq<At>, parent: seq<int>, p: nat, k: nat)
    requires Kin(st, at, parent) && p < |st| && k < |st| && k != p && k != INIT && at[p] == ForkPub(k) && st[k] == USED
    requires forall r :: 0 <= r < |st| && r != p && Makes(at[r]) ==> Base(at[r]).child != k
    ensures Kin(st, at[p := ForkRun(k)], parent[k := p])
  {
    var at', parent' := at[p := ForkRun(k)], parent[k := p];
    forall q | 0 <= q < |st| ensures ChildOk(st, at', parent', q) {
      assert ChildOk(st, at, parent, q);
    }
    forall r | 0 <= r < |st| ensures RearerOk(parent', r, at'[r]) {
      assert RearerOk(parent, r, at[r]);
    }
  }

  // and starts it.
  lemma KinStart(st: seq<PState>, at: seq<At>, parent: seq<int>, p: nat, k: nat)
    requires Kin(st, at, parent) && p < |st| && k < |st| && k != p && k != INIT
    requires at[p] == ForkRun(k) && at[k] == Dormant
    ensures Kin(st[k := RUNNABLE], at[k := Forkret][p := Run], parent)
  {
    var st', at' := st[k := RUNNABLE], at[k := Forkret][p := Run];
    assert RearerOk(parent, p, at[p]);
    forall q | 0 <= q < |st| ensures ChildOk(st', at', parent, q) {
      assert ChildOk(st, at, parent, q);
    }
    forall r | 0 <= r < |st| ensures RearerOk(parent, r, at'[r]) {
      assert RearerOk(parent, r, at[r]);
    }
  }

  // ------------------------------------------------------------ every step

  ghost predicate Family(s: State) {
    Good(s) && Kin(s.st, s.at, s.parent)
  }

  // State and position of a process agree.
  lemma StateOf(s: State, p: nat)
    requires Good(s) && p < |s.st|
    ensures s.st[p] == ZOMBIE ==> s.at[p].ExitZombie? || s.at[p].Dying? || s.at[p].Dead?
    ensures s.st[p] == USED ==> s.at[p] == Dormant
    ensures s.st[p] == UNUSED ==> !Rears(s.at[p])
    ensures Rears(s.at[p]) ==> s.st[p] in {RUNNING, RUNNABLE, SLEEPING}
  {
    assert ProcOk(s.st[p], s.at[p], s.where[p], s.plock[p]);
  }

  lemma MakersOf(s: State)
    requires Good(s)
    ensures Making(s.st, s.at)
  {
    forall r | 0 <= r < |s.st| && Makes(s.at[r])
      ensures Base(s.at[r]).child < |s.st| && s.st[Base(s.at[r]).child] == USED
    {
      assert MakerOk(s.st, s.at, s.maker, r);
    }
  }

  // Nobody else is making the child that p makes.
  lemma OneMaker(s: State, p: nat, k: nat)
    requires Good(s) && p < |s.st| && (s.at[p] == ForkPub(k) || s.at[p] == ForkRun(k))
    ensures k < |s.st| && k != p && s.st[k] == USED
    ensures forall r :: 0 <= r < |s.st| && r != p && Makes(s.at[r]) ==> Base(s.at[r]).child != k
  {
    assert MakerOk(s.st, s.at, s.maker, p);
    forall r | 0 <= r < |s.st| && r != p && Makes(s.at[r])
      ensures Base(s.at[r]).child != k
    {
      assert MakerOk(s.st, s.at, s.maker, r);
    }
  }

  // The process that CPU c runs is alive.
  lemma Running(s: State, c: nat)
    requires Family(s) && Runs(s, c)
    ensures var p := s.cat[c].p;
            && RearerOk(s.parent, p, s.at[p]) && !s.at[p].Dormant? && !s.at[p].Dead? && NestOk(s.at[p])
            && (|| s.st[p] == RUNNING
                || ((s.at[p].ExitZombie? || s.at[p].Dying?) && (s.st[p] == ZOMBIE || s.st[p] == UNUSED)))
  {
    Here(s, c, s.cat[c].p);
    assert RearerOk(s.parent, s.cat[c].p, s.at[s.cat[c].p]);
  }

  // Waking a sleeper.
  lemma KinWoken(s: State, k: nat, target: int)
    requires Family(s) && k < |s.st|
    ensures Kin(s.st[k := WakeState(s.st[k], s.chan[k], target)], s.at, s.parent)
  {
    assert RearerOk(s.parent, k, s.at[k]);
    KinRow(s.st, s.at, s.parent, k, WakeState(s.st[k], s.chan[k], target), s.at[k]);
    assert s.at[k := s.at[k]] == s.at;
  }

  lemma SchedKin(s: State, c: nat, x: SchedStep)
    requires Family(s) && c < |s.cat| && SchedNext(s, c, x).Some?
    ensures var s' := SchedNext(s, c, x).value; Kin(s'.st, s'.at, s'.parent)
  {
    if x.Switch? {
      var p := s.cat[c].p;
      assert RearerOk(s.parent, p, s.at[p]);
      KinRow(s.st, s.at, s.parent, p, RUNNING, s.at[p]);
      assert s.at[p := s.at[p]] == s.at;
    }
  }

  lemma SwitchKin(s: State, c: nat, x: SwitchStep)
    requires Family(s) && Runs(s, c) && SwitchNext(s, c, s.cat[c].p, x).Some?
    ensures var s' := SwitchNext(s, c, s.cat[c].p, x).value; Kin(s'.st, s'.at, s'.parent)
  {
    Running(s, c);
    var p := s.cat[c].p;
    var s' := SwitchNext(s, c, p, x).value;
    KinRow(s.st, s.at, s.parent, p, s'.st[p], s'.at[p]);
    assert s'.st == s.st[p := s'.st[p]] && s'.at == s.at[p := s'.at[p]];
  }

  lemma SleepKin(s: State, c: nat, x: SleepStep)
    requires Family(s) && Runs(s, c) && SleepNext(s, c, s.cat[c].p, x).Some?
    ensures var s' := SleepNext(s, c, s.cat[c].p, x).value; Kin(s'.st, s'.at, s'.parent)
  {
    Running(s, c);
    var p := s.cat[c].p;
    var s' := SleepNext(s, c, p, x).value;
    KinRow(s.st, s.at, s.parent, p, s.st[p], s'.at[p]);
    assert s'.st == s.st[p := s.st[p]] && s'.at == s.at[p := s'.at[p]];
  }

  // p moves on after one round of a wakeup.
  lemma KinWakeMove(s: State, p: nat, k: nat, target: int, a: At)
    requires Family(s) && p < |s.st| && k < |s.st| && RearerOk(s.parent, p, a) && !Base(s.at[p]).ForkRun?
    requires (Rears(s.at[p]) ==> Rears(a)) && (p == INIT ==> !ExitPc(a))
    ensures var s' := Move(Woken(s, p, k, target), p, a); Kin(s'.st, s'.at, s'.parent)
  {
    KinWoken(s, k, target);
    var st' := Woken(s, p, k, target).st;
    KinRow(st', s.at, s.parent, p, st'[p], a);
    assert st'[p := st'[p]] == st';
  }

  lemma WakeKin(s: State, c: nat, x: WakeStep)
    requires Family(s) && Runs(s, c) && WakeNext(s, c, s.cat[c].p, x).Some?
    ensures var s' := WakeNext(s, c, s.cat[c].p, x).value; Kin(s'.st, s'.at, s'.parent)
  {
    Running(s, c);
    var p := s.cat[c].p;
    var s' := WakeNext(s, c, p, x).value;
    if x.WakeOne? {
      KinWakeMove(s, p, s.at[p].k, s.at[p].chan, s'.at[p]);
    } else {
      KinRow(s.st, s.at, s.parent, p, s.st[p], s'.at[p]);
      assert s'.st == s.st[p := s.st[p]] && s'.at == s.at[p := s'.at[p]];
    }
  }

  lemma KinReap(s: State, p: nat, k: nat, a: At)
    requires Family(s) && p < |s.st| && k < |s.st| && s.st[k] == ZOMBIE && Rears(s.at[p]) && !Base(s.at[p]).ForkRun?
    requires a == Run
    ensures Kin(s.st[k := UNUSED], s.at[p := a], s.parent[k := -1])
  {
    StateOf(s, k);
    StateOf(s, p);
    MakersOf(s);
    KinFreed(s.st, s.at, s.parent, k);
    var st' := s.st[k := UNUSED];
    KinRow(st', s.at, s.parent[k := -1], p, st'[p], a);
    assert st'[p := st'[p]] == st';
  }

  lemma WaitKin(s: State, c: nat, x: WaitStep)
    requires Family(s) && Runs(s, c) && WaitNext(s, c, s.cat[c].p, x).Some?
    ensures var s' := WaitNext(s, c, s.cat[c].p, x).value; Kin(s'.st, s'.at, s'.parent)
  {
    Running(s, c);
    var p := s.cat[c].p;
    var s' := WaitNext(s, c, p, x).value;
    if s'.parent != s.parent || s'.st != s.st {
      var k := if x.WaitNoblock? then x.k else s.at[p].k;
      KinReap(s, p, k, Run);
      assert s'.at == s.at[p := Run];
    } else {
      KinRow(s.st, s.at, s.parent, p, s.st[p], s'.at[p]);
      assert s'.st == s.st[p := s.st[p]] && s'.at == s.at[p := s'.at[p]];
    }
  }

  lemma ForkKin(s: State, c: nat, x: ForkStep)
    requires Family(s) && Runs(s, c) && ForkNext(s, c, s.cat[c].p, x).Some?
    ensures var s' := ForkNext(s, c, s.cat[c].p, x).value; Kin(s'.st, s'.at, s'.parent)
  {
    Running(s, c);
    MakersOf(s);
    StateOf(s, INIT);
    var p := s.cat[c].p;
    match x
    case ForkAlloc(k) =>
      StateOf(s, k);
      KinAlloc(s.st, s.at, s.parent, p, k);
    case ForkFail =>
      OneMaker(s, p, s.at[p].child);
      StateOf(s, s.at[p].child);
      KinFail(s.st, s.at, s.parent, p, s.at[p].child);
    case ForkParent =>
      OneMaker(s, p, s.at[p].child);
      KinParent(s.st, s.at, s.parent, p, s.at[p].child);
    case ForkStart =>
      OneMaker(s, p, s.at[p].child);
      StateOf(s, s.at[p].child);
      KinStart(s.st, s.at, s.parent, p, s.at[p].child);
  }

  lemma ReparentKin(s: State, c: nat, x: ReparentStep)
    requires Family(s) && Runs(s, c) && ReparentNext(s, c, s.cat[c].p, x).Some?
    ensures var s' := ReparentNext(s, c, s.cat[c].p, x).value; Kin(s'.st, s'.at, s'.parent)
  {
    Running(s, c);
    MakersOf(s);
    var p := s.cat[c].p;
    var a, s' := s.at[p], ReparentNext(s, c, p, x).value;
    if x.ReparentOne? && s.parent[a.k] == p {
      KinAdopt(s.st, s.at, s.parent, p, a.k);
    } else if x.ReparentWakeOne? {
      KinWakeMove(s, p, a.j, INIT, s'.at[p]);
    } else if x.ReparentEnd? {
      KinPast(s.st, s.at, s.parent, p);
    } else {
      KinRow(s.st, s.at, s.parent, p, s.st[p], s'.at[p]);
      assert s'.st == s.st[p := s.st[p]] && s'.at == s.at[p := s'.at[p]];
    }
  }

  lemma ExitKin(s: State, c: nat, x: ExitStep)
    requires Family(s) && Runs(s, c) && ExitNext(s, c, s.cat[c].p, x).Some?
    ensures var s' := ExitNext(s, c, s.cat[c].p, x).value; Kin(s'.st, s'.at, s'.parent)
  {
    Running(s, c);
    var p := s.cat[c].p;
    var s' := ExitNext(s, c, p, x).value;
    if x.ExitWakeOne? {
      KinWakeMove(s, p, s.at[p].j, s.parent[p], s'.at[p]);
    } else {
      KinRow(s.st, s.at, s.parent, p, s'.st[p], s'.at[p]);
      assert s'.st == s.st[p := s'.st[p]] && s'.at == s.at[p := s'.at[p]];
    }
  }

  lemma IrqKin(s: State, c: nat, x: IrqStep)
    requires Family(s) && c < |s.cat| && IrqNext(s, c, x).Some?
    ensures var s' := IrqNext(s, c, x).value; Kin(s'.st, s'.at, s'.parent)
  {
    if x.IrqOne? {
      KinWoken(s, s.irq[c].k, s.irq[c].chan);
    }
  }

  lemma FamilyStep(s: State, step: Step)
    requires Family(s) && Next(s, step).Some?
    ensures Family(Next(s, step).value)
  {
    InvStep(s, step);
    match step
    case Sched(c, x) => SchedKin(s, c, x);
    case Swtch(c, x) => SwitchKin(s, c, x);
    case Sleeping(c, x) => SleepKin(s, c, x);
    case Wakeup(c, x) => WakeKin(s, c, x);
    case Waiting(c, x) => WaitKin(s, c, x);
    case Forking(c, x) => ForkKin(s, c, x);
    case Reparenting(c, x) => ReparentKin(s, c, x);
    case Exiting(c, x) => ExitKin(s, c, x);
    case Interrupt(c, x) => IrqKin(s, c, x);
    case Rouse(k) =>
      assert RearerOk(s.parent, k, s.at[k]);
      KinRow(s.st, s.at, s.parent, k, RUNNABLE, s.at[k]);
      assert s.at[k := s.at[k]] == s.at;
  }

  lemma {:induction false} FamilyRun(s: State, steps: seq<Step>, s': State)
    requires Family(s) && Reaches(s, steps, s')
    ensures Family(s')
    decreases |steps|
  {
    if steps != [] {
      FamilyStep(s, steps[0]);
      FamilyRun(Next(s, steps[0]).value, steps[1..], s');
    }
  }

  lemma FamilyInit(s: State)
    requires Init(s)
    ensures Family(s)
  {
    InvInit(s);
  }

  // ----------------------------------------- what a step does to the table

  datatype Effect = Nothing | Sets(k: nat, x: PState) | Frees(k: nat) | Adopts(k: nat) | Fathers(k: nat, p: nat)

  predicate Has(s: State, s': State, e: Effect)
    requires Shape(s)
  {
    match e
    case Nothing => s'.st == s.st && s'.parent == s.parent
    case Sets(k, x) => k < |s.st| && s'.st == s.st[k := x] && s'.parent == s.parent
    case Frees(k) => k < |s.st| && s'.st == s.st[k := UNUSED] && s'.parent == s.parent[k := -1]
    case Adopts(k) => k < |s.st| && s'.st == s.st && s'.parent == s.parent[k := INIT]
    case Fathers(k, p) => k < |s.st| && s'.st == s.st && s'.parent == s.parent[k := p]
  }

  // The step sets ZOMBIE.
  predicate Marks(step: Step) {
    step.Exiting? && step.exit.ExitMark?
  }

  // wait() or wait_noblock() returns with a child: it gives wait_lock back before the end of
  // its scan.
  predicate Reaps(s: State, step: Step)
    requires Shape(s)
  {
    step.Waiting? && Runs(s, step.c) &&
    match step.wait
    case WaitNoblock(_) => true
    case WaitChild(fault) =>
      !fault && Next(s, step).Some? && s.lk[WAIT_LOCK] != -1 && Next(s, step).value.lk[WAIT_LOCK] == -1
    case _ => false
  }

  // The step is a round of a wakeup on chan.
  predicate WakesOn(s: State, step: Step, chan: int)
    requires Shape(s)
  {
    match step
    case Wakeup(c, WakeOne) => Runs(s, c) && s.at[s.cat[c].p].Waking? && s.at[s.cat[c].p].chan == chan
    case Reparenting(c, ReparentWakeOne) => chan == INIT
    case Exiting(c, ExitWakeOne) => Runs(s, c) && s.parent[s.cat[c].p] == chan
    case Interrupt(c, IrqOne) => c < |s.irq| && s.irq[c].Scans? && s.irq[c].chan == chan
    case _ => false
  }

  // What may be the cause of it.
  predicate Caused(s: State, step: Step, e: Effect)
    requires Shape(s)
  {
    match e
    case Nothing => !Marks(step) && !Reaps(s, step)
    case Sets(k, x) =>
      && k < |s.st| && !Reaps(s, step) && (Marks(step) <==> x == ZOMBIE)
      && (match s.st[k]
          case UNUSED => x == USED && step.Forking?
          case USED => x == RUNNABLE && step.Forking?
          case SLEEPING => x == RUNNABLE && (step == Rouse(k) || WakesOn(s, step, s.chan[k]))
          case RUNNABLE => x == RUNNING && step.Sched?
          case RUNNING => x == ZOMBIE || ((x == RUNNABLE || x == SLEEPING) && step.Swtch?)
          case ZOMBIE => false)
    case Frees(k) =>
      && k < |s.st| && !Marks(step)
      && (if Reaps(s, step) then s.st[k] == ZOMBIE && s.parent[k] == s.cat[step.c].p
          else s.st[k] == USED && step.Forking?)
    case Adopts(k) =>
      && k < |s.st| && !Marks(step) && !Reaps(s, step) && 0 <= s.parent[k] < |s.at| && s.at[s.parent[k]].Reparent?
    case Fathers(k, _) => k < |s.st| && !Marks(step) && !Reaps(s, step) && s.st[k] == USED && s.lk[WAIT_LOCK] == -1
  }

  function WakeEffect(s: State, k: nat, target: int): Effect
    requires Shape(s) && k < |s.st|
  {
    if s.st[k] == SLEEPING && s.chan[k] == target then Sets(k, RUNNABLE) else Nothing
  }

  lemma WakeHas(s: State, k: nat, target: int)
    requires Shape(s) && k < |s.st|
    ensures Has(s, s.(st := s.st[k := WakeState(s.st[k], s.chan[k], target)]), WakeEffect(s, k, target))
  {
  }

  lemma SwitchEffect(s: State, c: nat, x: SwitchStep) returns (e: Effect)
    requires Family(s) && Next(s, Swtch(c, x)).Some?
    ensures Has(s, Next(s, Swtch(c, x)).value, e) && Caused(s, Swtch(c, x), e)
  {
    Running(s, c);
    e := match x
         case YieldSwitch => Sets(s.cat[c].p, RUNNABLE)
         case SleepSwitch => Sets(s.cat[c].p, SLEEPING)
         case _ => Nothing;
    assert s.st[s.cat[c].p := s.st[s.cat[c].p]] == s.st;
  }

  lemma ForkEffect(s: State, c: nat, x: ForkStep) returns (e: Effect)
    requires Family(s) && Next(s, Forking(c, x)).Some?
    ensures Has(s, Next(s, Forking(c, x)).value, e) && Caused(s, Forking(c, x), e)
  {
    var p := s.cat[c].p;
    if !x.ForkAlloc? {
      OneMaker(s, p, s.at[p].child);
    }
    match x
    case ForkAlloc(k) => e := Sets(k, USED);
    case ForkFail => e := Frees(s.at[p].child);
    case ForkParent => e := Fathers(s.at[p].child, p);
    case ForkStart => e := Sets(s.at[p].child, RUNNABLE);
  }

  lemma WaitEffect(s: State, c: nat, x: WaitStep) returns (e: Effect)
    requires Family(s) && Next(s, Waiting(c, x)).Some?
    ensures Has(s, Next(s, Waiting(c, x)).value, e) && Caused(s, Waiting(c, x), e)
  {
    var p := s.cat[c].p;
    var a := s.at[p];
    assert HeldBy(p, LkOf(s.at[p]), s.lk);
    match x
    case WaitNoblock(k) => e := Frees(k);
    case WaitChild(fault) => e := if s.parent[a.k] == p && s.st[a.k] == ZOMBIE && !fault then Frees(a.k) else Nothing;
    case _ => e := Nothing;
  }

  lemma ReparentEffect(s: State, c: nat, x: ReparentStep) returns (e: Effect)
    requires Family(s) && Next(s, Reparenting(c, x)).Some?
    ensures Has(s, Next(s, Reparenting(c, x)).value, e) && Caused(s, Reparenting(c, x), e)
  {
    var p := s.cat[c].p;
    var a := s.at[p];
    match x
    case ReparentOne => e := if s.parent[a.k] == p then Adopts(a.k) else Nothing;
    case ReparentWakeOne =>
      e := if a.j == p then Nothing else WakeEffect(s, a.j, INIT);
      WakeHas(s, a.j, INIT);
    case _ => e := Nothing;
  }

  lemma ExitEffect(s: State, c: nat, x: ExitStep) returns (e: Effect)
    requires Family(s) && Next(s, Exiting(c, x)).Some?
    ensures Has(s, Next(s, Exiting(c, x)).value, e) && Caused(s, Exiting(c, x), e)
  {
    Running(s, c);
    var p := s.cat[c].p;
    var a := s.at[p];
    match x
    case ExitMark => e := Sets(p, ZOMBIE);
    case ExitWakeOne =>
      e := if a.j == p then Nothing else WakeEffect(s, a.j, s.parent[p]);
      WakeHas(s, a.j, s.parent[p]);
    case _ => e := Nothing;
  }

  lemma EffectOf(s: State, step: Step) returns (e: Effect)
    requires Family(s) && Next(s, step).Some?
    ensures Has(s, Next(s, step).value, e) && Caused(s, step, e)
  {
    match step
    case Sched(c, x) => e := if x.Switch? then Sets(s.cat[c].p, RUNNING) else Nothing;
    case Swtch(c, x) => e := SwitchEffect(s, c, x);
    case Sleeping(c, x) => e := Nothing;
    case Wakeup(c, x) => e := WakeupEffect(s, c, x);
    case Waiting(c, x) => e := WaitEffect(s, c, x);
    case Forking(c, x) => e := ForkEffect(s, c, x);
    case Reparenting(c, x) => e := ReparentEffect(s, c, x);
    case Exiting(c, x) => e := ExitEffect(s, c, x);
    case Interrupt(c, x) => e := IrqEffect(s, c, x);
    case Rouse(k) => e := Sets(k, RUNNABLE);
  }

  lemma WakeupEffect(s: State, c: nat, x: WakeStep) returns (e: Effect)
    requires Family(s) && Next(s, Wakeup(c, x)).Some?
    ensures Has(s, Next(s, Wakeup(c, x)).value, e) && Caused(s, Wakeup(c, x), e)
  {
    var a := s.at[s.cat[c].p];
    if x.WakeOne? && a.k != s.cat[c].p {
      e := WakeEffect(s, a.k, a.chan);
      WakeHas(s, a.k, a.chan);
    } else {
      e := Nothing;
    }
  }

  lemma IrqEffect(s: State, c: nat, x: IrqStep) returns (e: Effect)
    requires Family(s) && Next(s, Interrupt(c, x)).Some?
    ensures Has(s, Next(s, Interrupt(c, x)).value, e) && Caused(s, Interrupt(c, x), e)
  {
    var h := s.irq[c];
    if x.IrqOne? && h.k != s.cproc[c] {
      e := WakeEffect(s, h.k, h.chan);
      WakeHas(s, h.k, h.chan);
    } else {
      e := Nothing;
    }
  }

  // --------------------------------------------------------- the guarantees

  // Whoever runs, sleeps or is dead, init aside, has a parent, and each parent is alive and
  // has not given up wait().
  lemma ParentCanWait(s0: State, steps: seq<Step>, s: State, q: nat)
    requires Init(s0) && Reaches(s0, steps, s) && q < |s.st|
    ensures q != INIT && s.st[q] != UNUSED && s.st[q] != USED ==> s.parent[q] >= 0
    ensures s.parent[q] >= 0 ==> s.parent[q] < |s.st| && !Past(s.at[s.parent[q]])
    ensures s.parent[q] >= 0 ==> s.st[s.parent[q]] in {RUNNING, RUNNABLE, SLEEPING}
  {
    FamilyInit(s0);
    FamilyRun(s0, steps, s);
    assert ChildOk(s.st, s.at, s.parent, q);
    if s.parent[q] >= 0 {
      StateOf(s, s.parent[q]);
    }
  }

  // A process that is past reparent() has no children left.
  lemma ExitLeavesNone(s0: State, steps: seq<Step>, s: State, p: nat, q: nat)
    requires Init(s0) && Reaches(s0, steps, s) && p < |s.st| && q < |s.st| && Past(s.at[p])
    ensures s.parent[q] != p
  {
    FamilyInit(s0);
    FamilyRun(s0, steps, s);
    assert ChildOk(s.st, s.at, s.parent, q);
  }

  // Process q is not freed on the way.
  ghost predicate StaysUsed(s: State, steps: seq<Step>, s': State, q: nat)
    requires Shape(s) && Reaches(s, steps, s') && q < |s.st|
    decreases |steps|
  {
    && s.st[q] != UNUSED
    && (steps != [] ==> |Next(s, steps[0]).value.st| == |s.st| && StaysUsed(Next(s, steps[0]).value, steps[1..], s', q))
  }

  // The only ways for a process to change its parent.
  predicate Keeps(s: State, s': State, q: nat)
    requires Shape(s) && q < |s.st|
  {
    && |s'.st| == |s'.parent| == |s.st|
    && (s'.st[q] == UNUSED
        || (Lives(s'.st[q]) && s'.parent[q] == s.parent[q])
        || (Lives(s'.st[q]) && s'.parent[q] == INIT && 0 <= s.parent[q] < |s.st| && ExitPc(s.at[s.parent[q]])))
  }

  lemma ParentEffect(s: State, step: Step, s': State, e: Effect, q: nat)
    requires Shape(s) && Has(s, s', e) && Caused(s, step, e) && q < |s.st| && Lives(s.st[q])
    ensures Keeps(s, s', q)
  {
  }

  lemma ParentStep(s: State, step: Step, q: nat)
    requires Family(s) && Next(s, step).Some? && q < |s.st| && Lives(s.st[q])
    ensures Keeps(s, Next(s, step).value, q)
  {
    var e := EffectOf(s, step);
    ParentEffect(s, step, Next(s, step).value, e, q);
  }

  lemma {:induction false} AdoptedRun(s: State, steps: seq<Step>, s': State, p: nat, q: nat)
    requires Family(s) && Reaches(s, steps, s') && p < |s.st| && q < |s.st| && StaysUsed(s, steps, s', q)
    requires Lives(s.st[q]) && (s.parent[q] == p || s.parent[q] == INIT)
    ensures Family(s') && |s'.st| == |s.st| && (s'.parent[q] == p || s'.parent[q] == INIT)
    decreases |steps|
  {
    if steps != [] {
      FamilyStep(s, steps[0]);
      ParentStep(s, steps[0], q);
      AdoptedRun(Next(s, steps[0]).value, steps[1..], s', p, q);
    }
  }

  // Whoever has p as its parent at any time has init as its parent once p is past reparent(),
  // unless it has been reaped.
  lemma ExitHandsOver(s0: State, before: seq<Step>, s: State, p: nat, q: nat, during: seq<Step>, s': State)
    requires Init(s0) && Reaches(s0, before, s) && p < |s.st| && q < |s.st| && s.parent[q] == p && s.st[q] != USED
    requires Reaches(s, during, s') && p < |s'.st| && q < |s'.st| && StaysUsed(s, during, s', q) && Past(s'.at[p])
    ensures s'.parent[q] == INIT
  {
    FamilyInit(s0);
    FamilyRun(s0, before, s);
    assert ChildOk(s.st, s.at, s.parent, q);
    AdoptedRun(s, during, s', p, q);
    assert ChildOk(s'.st, s'.at, s'.parent, q);
  }

  // fork() starts a child whose parent is the process that called it.
  lemma ForkMakesChild(s0: State, steps: seq<Step>, s: State, c: nat)
    requires Init(s0) && Reaches(s0, steps, s) && Next(s, Forking(c, ForkStart)).Some?
    ensures var p, s' := s.cat[c].p, Next(s, Forking(c, ForkStart)).value;
            exists k :: 0 <= k < |s.st| && k != p && s.st[k] == USED && s'.st == s.st[k := RUNNABLE]
                        && s'.parent[k] == p
  {
    FamilyInit(s0);
    FamilyRun(s0, steps, s);
    Running(s, c);
    OneMaker(s, s.cat[c].p, s.at[s.cat[c].p].child);
  }

  ghost function Zombies(s: State): set<nat> {
    set q: nat | q < |s.st| && s.st[q] == ZOMBIE
  }

  // Exits minus reaps.
  ghost function Balance(s: State, steps: seq<Step>, s': State): int
    requires Shape(s) && Reaches(s, steps, s')
    decreases |steps|
  {
    if steps == [] then 0
    else (if Marks(steps[0]) then 1 else if Reaps(s, steps[0]) then -1 else 0)
         + Balance(Next(s, steps[0]).value, steps[1..], s')
  }

  // The change of the number of dead processes.
  function Change(s: State, e: Effect): int
    requires Shape(s)
  {
    match e
    case Sets(k, x) => if x == ZOMBIE then 1 else 0
    case Frees(k) => if k < |s.st| && s.st[k] == ZOMBIE then -1 else 0
    case _ => 0
  }

  lemma ZombiesMore(s: State, s': State, k: nat)
    requires k < |s.st| && s.st[k] != ZOMBIE && s'.st == s.st[k := ZOMBIE]
    ensures |Zombies(s')| == |Zombies(s)| + 1
  {
    assert Zombies(s') == Zombies(s) + {k};
  }

  lemma ZombiesLess(s: State, s': State, k: nat)
    requires k < |s.st| && s.st[k] == ZOMBIE && s'.st == s.st[k := UNUSED]
    ensures |Zombies(s')| == |Zombies(s)| - 1
  {
    assert Zombies(s') == Zombies(s) - {k};
  }

  lemma ZombiesSame(s: State, s': State, k: nat, x: PState)
    requires k < |s.st| && s.st[k] != ZOMBIE && x != ZOMBIE && s'.st == s.st[k := x]
    ensures |Zombies(s')| == |Zombies(s)|
  {
    assert Zombies(s') == Zombies(s);
  }

  lemma ZombiesChange(s: State, step: Step, s': State, e: Effect)
    requires Shape(s) && Has(s, s', e) && Caused(s, step, e)
    ensures |Zombies(s')| == |Zombies(s)| + Change(s, e)
    ensures Change(s, e) == if Marks(step) then 1 else if Reaps(s, step) then -1 else 0
  {
    match e
    case Sets(k, x) =>
      if x == ZOMBIE {
        ZombiesMore(s, s', k);
      } else {
        ZombiesSame(s, s', k, x);
      }
    case Frees(k) =>
      if s.st[k] == ZOMBIE {
        ZombiesLess(s, s', k);
      } else {
        ZombiesSame(s, s', k, UNUSED);
      }
    case _ => assert Zombies(s') == Zombies(s);
  }

  lemma ZombieStep(s: State, step: Step)
    requires Family(s) && Next(s, step).Some?
    ensures |Zombies(Next(s, step).value)| == |Zombies(s)| + if Marks(step) then 1 else if Reaps(s, step) then -1 else 0
  {
    var e := EffectOf(s, step);
    ZombiesChange(s, step, Next(s, step).value, e);
  }

  // Over every run, each exit leaves one dead process and each reap takes one away.
  lemma {:induction false} EveryExitReapedOnce(s: State, steps: seq<Step>, s': State)
    requires Family(s) && Reaches(s, steps, s')
    ensures |Zombies(s')| == |Zombies(s)| + Balance(s, steps, s')
    decreases |steps|
  {
    if steps != [] {
      FamilyStep(s, steps[0]);
      ZombieStep(s, steps[0]);
      EveryExitReapedOnce(Next(s, steps[0]).value, steps[1..], s');
    }
  }

  // wait() and wait_noblock() return only with a dead child of the caller's own, whose slot
  // is free then.
  lemma WaitReapsOwn(s: State, step: Step) returns (k: nat)
    requires Family(s) && Next(s, step).Some? && Reaps(s, step)
    ensures var s' := Next(s, step).value;
            && k < |s.st| && s.parent[k] == s.cat[step.c].p && s.st[k] == ZOMBIE
            && s'.st == s.st[k := UNUSED] && s'.parent == s.parent[k := -1]
  {
    var e := EffectOf(s, step);
    k := e.k;
  }

  // A sleeper is woken by a wakeup on its own channel or by kill(), and by nothing else.
  lemma WokenByItsChannel(s: State, step: Step, p: nat)
    requires Family(s) && Next(s, step).Some? && p < |s.st| && s.st[p] == SLEEPING
    ensures var s' := Next(s, step).value;
            && p < |s'.st| && (s'.st[p] == SLEEPING || s'.st[p] == RUNNABLE)
            && (s'.st[p] == RUNNABLE ==> step == Rouse(p) || WakesOn(s, step, s.chan[p]))
  {
    var e := EffectOf(s, step);
  }
}
