// Sleeping and waking: no wakeup is lost, and nobody stays asleep in wait()
// with a dead child.
module ProcWait {
  import opened ProcSpec
  import opened ProcProof

  // ------------------------------------------------------------- who holds

  // The lock, other than its own, that the thread holds here; -1 for none.
  function LkOf(a: At): int {
    match a
    case Crit(l) => l
    case Waking(_, l, _) => l
    case SleepHeld(_, l) => l
    case WaitScan(_, _) => WAIT_LOCK
    case Reparent(_) => WAIT_LOCK
    case ReparentWake(_, _) => WAIT_LOCK
    case ExitWake(_) => WAIT_LOCK
    case ExitHeld => WAIT_LOCK
    case ExitZombie => WAIT_LOCK
    case _ => -1
  }

  ghost predicate LkInv(at: seq<At>, lk: seq<int>) {
    && |lk| >= 1
    && (forall p {:trigger HeldBy(p, LkOf(at[p]), lk)} :: 0 <= p < |at| ==> HeldBy(p, LkOf(at[p]), lk))
    && (forall l {:trigger HolderOk(l, lk[l], at)} :: 0 <= l < |lk| ==> HolderOk(l, lk[l], at))
  }

  predicate HeldBy(p: nat, l: int, lk: seq<int>) {
    l >= 0 ==> l < |lk| && lk[l] == p
  }

  predicate HolderOk(l: nat, p: int, at: seq<At>) {
    p >= 0 ==> p < |at| && LkOf(at[p]) == l
  }

  // ---------------------------------------------------------- who is asleep

  // In sleep(chan, l), after lock l was let go and before anything woke it.
  predicate Dozing(st: PState, a: At, chan: int, l: nat) {
    a == Window(chan, l) || (a == Asleep(chan, l) && st == SLEEPING)
  }

  // The chan field of a sleeper is what it sleeps on.
  ghost predicate ChanInv(st: seq<PState>, at: seq<At>, chan: seq<int>) {
    |st| == |at| == |chan| && forall p {:trigger ChanOk(st[p], at[p], chan[p])} ::
      0 <= p < |st| ==> ChanOk(st[p], at[p], chan[p])
  }

  predicate ChanOk(st: PState, a: At, chan: int) {
    a.Asleep? && st == SLEEPING ==> chan == a.chan
  }

  // wakeup(chan) under lock l has passed process k.
  ghost predicate Passed(st: seq<PState>, at: seq<At>, a: At)
    requires |st| == |at|
  {
    a.Waking? ==> forall p :: 0 <= p < |st| && p < a.k ==> !Dozing(st[p], at[p], a.chan, a.l)
  }

  ghost predicate WakeInv(st: seq<PState>, at: seq<At>) {
    |st| == |at| && forall w {:trigger Passed(st, at, at[w])} :: 0 <= w < |st| ==> Passed(st, at, at[w])
  }

  // -------------------------------------------------------- wait() and exit()

  predicate InWait(st: PState, a: At, p: nat) {
    Dozing(st, a, p, WAIT_LOCK)
  }

  // A dead child, or one being handed to init, whose parent is asleep in wait().
  ghost predicate Starves(st: seq<PState>, at: seq<At>, parent: seq<int>, q: nat)
    requires |st| == |at| == |parent| && q < |st|
  {
    st[q] == ZOMBIE && 0 <= parent[q] < |st| && InWait(st[parent[q]], at[parent[q]], parent[q])
  }

  // Only init, and only until the exiting process that adopted the child out has called wakeup(initproc).
  ghost predicate Excused(at: seq<At>, lk: seq<int>, p: int) {
    && p == INIT && |lk| >= 1 && 0 <= lk[WAIT_LOCK] < |at|
    && at[lk[WAIT_LOCK]].ReparentWake? && at[lk[WAIT_LOCK]].j <= INIT
  }

  ghost predicate NoChildDead(st: seq<PState>, parent: seq<int>, p: nat, k: nat)
    requires |st| == |parent|
  {
    forall q :: 0 <= q < |st| && q < k && parent[q] == p ==> st[q] != ZOMBIE
  }

  predicate ParentAwake(st: seq<PState>, at: seq<At>, p: int)
    requires |st| == |at|
  {
    0 <= p < |st| ==> !InWait(st[p], at[p], p)
  }

  // What the holder e of wait_lock has achieved so far.
  ghost predicate HolderInv(st: seq<PState>, at: seq<At>, parent: seq<int>, e: nat)
    requires |st| == |at| == |parent| && e < |st|
  {
    match at[e]
    case WaitScan(k, _) => NoChildDead(st, parent, e, k)
    case SleepHeld(chan, l) => l == WAIT_LOCK ==> chan == e && NoChildDead(st, parent, e, |st|)
    case ReparentWake(_, j) => INIT < j ==> ParentAwake(st, at, INIT)
    case ExitWake(j) => parent[e] < j ==> ParentAwake(st, at, parent[e])
    case ExitHeld => ParentAwake(st, at, parent[e])
    case _ => true
  }

  ghost predicate WaitInv(st: seq<PState>, at: seq<At>, parent: seq<int>, lk: seq<int>) {
    && |st| == |at| == |parent| >= 1 && |lk| >= 1
    && (forall q :: 0 <= q < |st| ==> Starves(st, at, parent, q) ==> Excused(at, lk, parent[q]))
    && (0 <= lk[WAIT_LOCK] < |st| ==> HolderInv(st, at, parent, lk[WAIT_LOCK]))
  }

  predicate ExitPc(a: At) {
    a.Reparent? || a.ReparentWake? || a.ExitWake? || a.ExitHeld? || a.ExitZombie? || a.Dying? || a.Dead?
  }

  // The child that the thread is creating; -1 for none.
  function ChildOf(a: At): int {
    match a
    case ForkPub(k) => k
    case ForkRun(k) => k
    case YieldHeld(next) => if next.ForkPub? || next.ForkRun? then next.child else -1
    case Yielded(next) => if next.ForkPub? || next.ForkRun? then next.child else -1
    case _ => -1
  }

  ghost predicate MakerInv(st: seq<PState>, at: seq<At>, maker: seq<int>) {
    |st| == |at| == |maker| && forall p {:trigger MakerOk(st, at, maker, p)} ::
      0 <= p < |st| ==> MakerOk(st, at, maker, p)
  }

  ghost predicate MakerOk(st: seq<PState>, at: seq<At>, maker: seq<int>, p: nat)
    requires |st| == |at| == |maker| && p < |st|
  {
    var k := ChildOf(at[p]);
    k >= 0 ==> k < |st| && k != p && st[k] == USED && maker[k] == p
  }

  ghost predicate Rest(st: seq<PState>, at: seq<At>, chan: seq<int>, parent: seq<int>, maker: seq<int>, lk: seq<int>) {
    && LkInv(at, lk) && ChanInv(st, at, chan) && MakerInv(st, at, maker)
    && WakeInv(st, at) && WaitInv(st, at, parent, lk) && !ExitPc(at[INIT])
  }

  ghost predicate Inv(s: State) {
    Core(s) && Rest(s.st, s.at, s.chan, s.parent, s.maker, s.lk)
  }

  // ------------------------------------------------- one row of the table

  // Going from (x, a) to (x', a') puts nobody to sleep.
  predicate Calm(x: PState, a: At, x': PState, a': At) {
    || !(a'.Window? || (a'.Asleep? && x' == SLEEPING))
    || (a' == a && (x' == x || x' != SLEEPING))
    || (a.Window? && a' == Asleep(a.chan, a.l))
  }

  lemma CalmDozing(x: PState, a: At, x': PState, a': At, chan: int, l: nat)
    requires Calm(x, a, x', a') && Dozing(x', a', chan, l)
    ensures Dozing(x, a, chan, l)
  {
  }

  lemma LkKeep(at: seq<At>, lk: seq<int>, p: nat, a: At)
    requires LkInv(at, lk) && p < |at| && LkOf(a) == LkOf(at[p])
    ensures LkInv(at[p := a], lk)
  {
    var at' := at[p := a];
    forall q | 0 <= q < |at| ensures HeldBy(q, LkOf(at'[q]), lk) {
      assert HeldBy(q, LkOf(at[q]), lk);
    }
    forall l | 0 <= l < |lk| ensures HolderOk(l, lk[l], at') {
      assert HolderOk(l, lk[l], at);
    }
  }

  lemma LkTake(at: seq<At>, lk: seq<int>, p: nat, a: At, l: nat)
    requires LkInv(at, lk) && p < |at| && l < |lk| && lk[l] == -1 && LkOf(at[p]) == -1 && LkOf(a) == l
    ensures LkInv(at[p := a], lk[l := p])
  {
    var at', lk' := at[p := a], lk[l := p];
    forall q | 0 <= q < |at| ensures HeldBy(q, LkOf(at'[q]), lk') {
      assert HeldBy(q, LkOf(at[q]), lk);
    }
    forall m | 0 <= m < |lk| ensures HolderOk(m, lk'[m], at') {
      assert HolderOk(m, lk[m], at);
    }
  }

  lemma LkDrop(at: seq<At>, lk: seq<int>, p: nat, a: At, l: nat)
    requires LkInv(at, lk) && p < |at| && LkOf(at[p]) == l && LkOf(a) == -1
    ensures l < |lk| && lk[l] == p && LkInv(at[p := a], lk[l := -1])
  {
    assert HeldBy(p, LkOf(at[p]), lk);
    var at', lk' := at[p := a], lk[l := -1];
    forall q | 0 <= q < |at| ensures HeldBy(q, LkOf(at'[q]), lk') {
      assert HeldBy(q, LkOf(at[q]), lk);
    }
    forall m | 0 <= m < |lk| ensures HolderOk(m, lk'[m], at') {
      assert HolderOk(m, lk[m], at);
    }
  }

  lemma MakerRow(st: seq<PState>, at: seq<At>, maker: seq<int>, p: nat, x: PState, a: At)
    requires MakerInv(st, at, maker) && p < |st| && (st[p] == USED ==> x == USED)
    requires ChildOf(a) == ChildOf(at[p]) || ChildOf(a) == -1
    ensures MakerInv(st[p := x], at[p := a], maker)
  {
    var st', at' := st[p := x], at[p := a];
    forall q | 0 <= q < |st| ensures MakerOk(st', at', maker, q) {
      assert MakerOk(st, at, maker, q);
    }
  }

  lemma WakeRow(st: seq<PState>, at: seq<At>, p: nat, x: PState, a: At)
    requires WakeInv(st, at) && p < |st| && Calm(st[p], at[p], x, a) && Passed(st, at, a)
    ensures WakeInv(st[p := x], at[p := a])
  {
    var st', at' := st[p := x], at[p := a];
    forall w | 0 <= w < |st| ensures Passed(st', at', at'[w]) {
      assert Passed(st, at, at[w]);
      var b := at'[w];
      if b.Waking? {
        forall q | 0 <= q < |st| && q < b.k ensures !Dozing(st'[q], at'[q], b.chan, b.l) {
          if q == p && Dozing(x, a, b.chan, b.l) {
            CalmDozing(st[p], at[p], x, a, b.chan, b.l);
          }
        }
      }
    }
  }

  // A row change by someone who does not hold wait_lock, or whose own part of the invariant is shown.
  lemma WaitRow(st: seq<PState>, at: seq<At>, parent: seq<int>, lk: seq<int>, p: nat, x: PState, a: At)
    requires WaitInv(st, at, parent, lk) && p < |st| && Calm(st[p], at[p], x, a) && (x == ZOMBIE ==> st[p] == ZOMBIE)
    requires lk[WAIT_LOCK] == p ==> !at[p].ReparentWake? && HolderInv(st[p := x], at[p := a], parent, p)
    ensures WaitInv(st[p := x], at[p := a], parent, lk)
  {
    var st', at' := st[p := x], at[p := a];
    forall q | 0 <= q < |st| && Starves(st', at', parent, q) ensures Excused(at', lk, parent[q]) {
      StarvedBefore(st, at, parent, p, x, a, q);
    }
    var e := lk[WAIT_LOCK];
    if 0 <= e < |st| && e != p {
      AwakeStill(st, at, p, x, a, parent[e]);
      AwakeStill(st, at, p, x, a, INIT);
    }
  }

  lemma StarvedBefore(st: seq<PState>, at: seq<At>, parent: seq<int>, p: nat, x: PState, a: At, q: nat)
    requires |st| == |at| == |parent| && p < |st| && q < |st| && Calm(st[p], at[p], x, a)
    requires (x == ZOMBIE ==> st[p] == ZOMBIE)
    requires Starves(st[p := x], at[p := a], parent, q)
    ensures Starves(st, at, parent, q)
  {
    if parent[q] == p {
      CalmDozing(st[p], at[p], x, a, p, WAIT_LOCK);
    }
  }

  lemma AwakeStill(st: seq<PState>, at: seq<At>, p: nat, x: PState, a: At, r: int)
    requires |st| == |at| && p < |st| && Calm(st[p], at[p], x, a)
    ensures ParentAwake(st, at, r) ==> ParentAwake(st[p := x], at[p := a], r)
  {
    if r == p && InWait(x, a, p) {
      CalmDozing(st[p], at[p], x, a, p, WAIT_LOCK);
    }
  }

  // Unless an exiting process is waking init, no dead child has a parent asleep in wait().
  lemma NobodyStarves(st: seq<PState>, at: seq<At>, parent: seq<int>, lk: seq<int>)
    requires WaitInv(st, at, parent, lk) && !Excused(at, lk, INIT)
    ensures forall q :: 0 <= q < |st| ==> !Starves(st, at, parent, q)
  {
  }

  lemma WaitTake(st: seq<PState>, at: seq<At>, parent: seq<int>, lk: seq<int>, p: nat, a: At)
    requires WaitInv(st, at, parent, lk) && p < |st| && lk[WAIT_LOCK] == -1 && (a.WaitScan? || a.Reparent?)
    requires a.WaitScan? ==> a.k == 0
    ensures WaitInv(st, at[p := a], parent, lk[WAIT_LOCK := p])
  {
    NobodyStarves(st, at, parent, lk);
    var at' := at[p := a];
    forall q | 0 <= q < |st| ensures !Starves(st, at', parent, q) {
      assert !Starves(st, at, parent, q);
    }
  }

  // Letting go of wait_lock, with nobody falling asleep.
  lemma WaitDrop(st: seq<PState>, at: seq<At>, parent: seq<int>, lk: seq<int>, p: nat, a: At)
    requires WaitInv(st, at, parent, lk) && p < |st| && lk[WAIT_LOCK] == p && !at[p].ReparentWake?
    requires !a.Window? && !a.Asleep?
    ensures WaitInv(st, at[p := a], parent, lk[WAIT_LOCK := -1])
  {
    NobodyStarves(st, at, parent, lk);
    var at' := at[p := a];
    forall q | 0 <= q < |st| ensures !Starves(st, at', parent, q) {
      assert !Starves(st, at, parent, q);
    }
  }

  // sleep(p, &wait_lock) lets go of wait_lock: p has no dead child.
  lemma WaitDoze(st: seq<PState>, at: seq<At>, parent: seq<int>, lk: seq<int>, p: nat)
    requires WaitInv(st, at, parent, lk) && p < |st| && lk[WAIT_LOCK] == p && at[p] == SleepHeld(p, WAIT_LOCK)
    ensures WaitInv(st, at[p := Window(p, WAIT_LOCK)], parent, lk[WAIT_LOCK := -1])
  {
    NobodyStarves(st, at, parent, lk);
    var at' := at[p := Window(p, WAIT_LOCK)];
    forall q | 0 <= q < |st| ensures !Starves(st, at', parent, q) {
      assert !Starves(st, at, parent, q);
    }
  }

  // ------------------------------------------------------ kinds of steps

  ghost predicate ChanBut(chan: seq<int>, chan': seq<int>, p: nat) {
    |chan| == |chan'| && forall q :: 0 <= q < |chan| && q != p ==> chan'[q] == chan[q]
  }

  predicate Plain(a: At) {
    !a.Window? && !a.Asleep?
  }

  lemma NotHolder(at: seq<At>, lk: seq<int>, p: nat)
    requires LkInv(at, lk) && p < |at| && LkOf(at[p]) != WAIT_LOCK
    ensures lk[WAIT_LOCK] != p
  {
    assert HolderOk(WAIT_LOCK, lk[WAIT_LOCK], at);
  }

  // p moves on without taking or dropping any of the other locks.
  lemma RestMove(st: seq<PState>, at: seq<At>, chan: seq<int>, parent: seq<int>, maker: seq<int>, lk: seq<int>, p: nat,
      a: At,
      chan': seq<int>)
    requires Rest(st, at, chan, parent, maker, lk) && p < |st| && LkOf(a) == LkOf(at[p]) && Plain(a)
    requires ChanBut(chan, chan', p)
    requires ChildOf(a) == ChildOf(at[p]) || ChildOf(a) == -1
    requires Passed(st, at, a) && (ExitPc(a) ==> p != INIT)
    requires lk[WAIT_LOCK] == p ==> !at[p].ReparentWake? && HolderInv(st, at[p := a], parent, p)
    ensures Rest(st, at[p := a], chan', parent, maker, lk)
  {
    assert st[p := st[p]] == st;
    LkKeep(at, lk, p, a);
    MakerRow(st, at, maker, p, st[p], a);
    WakeRow(st, at, p, st[p], a);
    WaitRow(st, at, parent, lk, p, st[p], a);
  }

  lemma RestTake(st: seq<PState>, at: seq<At>, chan: seq<int>, parent: seq<int>, maker: seq<int>, lk: seq<int>, p: nat,
      a: At, l: nat)
    requires Rest(st, at, chan, parent, maker, lk) && p < |st| && l < |lk| && lk[l] == -1
    requires LkOf(at[p]) == -1 && LkOf(a) == l && Plain(a) && !a.Waking? && ChildOf(a) == -1
    requires (ExitPc(a) ==> p != INIT)
    requires l == WAIT_LOCK ==> (a.WaitScan? && a.k == 0) || a.Reparent?
    ensures Rest(st, at[p := a], chan, parent, maker, lk[l := p])
  {
    assert st[p := st[p]] == st;
    NotHolder(at, lk, p);
    LkTake(at, lk, p, a, l);
    MakerRow(st, at, maker, p, st[p], a);
    WakeRow(st, at, p, st[p], a);
    if l == WAIT_LOCK {
      WaitTake(st, at, parent, lk, p, a);
    } else {
      WaitRow(st, at, parent, lk, p, st[p], a);
      OtherLock(st, at[p := a], parent, lk, l, p);
    }
  }

  lemma OtherLock(st: seq<PState>, at: seq<At>, parent: seq<int>, lk: seq<int>, l: nat, v: int)
    requires WaitInv(st, at, parent, lk) && WAIT_LOCK < l < |lk|
    ensures WaitInv(st, at, parent, lk[l := v])
  {
  }

  lemma RestDrop(st: seq<PState>, at: seq<At>, chan: seq<int>, parent: seq<int>, maker: seq<int>, lk: seq<int>, p: nat,
      a: At, l: nat)
    requires Rest(st, at, chan, parent, maker, lk) && p < |st| && LkOf(at[p]) == l && !at[p].ReparentWake?
    requires LkOf(a) == -1 && Plain(a) && ChildOf(a) == -1 && (ExitPc(a) ==> p != INIT)
    ensures l < |lk| && Rest(st, at[p := a], chan, parent, maker, lk[l := -1])
  {
    assert st[p := st[p]] == st;
    LkDrop(at, lk, p, a, l);
    MakerRow(st, at, maker, p, st[p], a);
    WakeRow(st, at, p, st[p], a);
    if l == WAIT_LOCK {
      WaitDrop(st, at, parent, lk, p, a);
    } else {
      NotHolder(at, lk, p);
      WaitRow(st, at, parent, lk, p, st[p], a);
      OtherLock(st, at[p := a], parent, lk, l, -1);
    }
  }

  // sleep() lets go of lock l. Nobody can be in wakeup() under l meanwhile.
  lemma RestDoze(st: seq<PState>, at: seq<At>, chan: seq<int>, parent: seq<int>, maker: seq<int>, lk: seq<int>, p: nat,
      ch: int, l: nat)
    requires Rest(st, at, chan, parent, maker, lk) && p < |st| && at[p] == SleepHeld(ch, l)
    ensures l < |lk| && Rest(st, at[p := Window(ch, l)], chan, parent, maker, lk[l := -1])
  {
    var a := Window(ch, l);
    assert st[p := st[p]] == st;
    LkDrop(at, lk, p, a, l);
    MakerRow(st, at, maker, p, st[p], a);
    WakeDoze(st, at, lk, p, ch, l);
    if l == WAIT_LOCK {
      WaitDoze(st, at, parent, lk, p);
    } else {
      NotHolder(at, lk, p);
      DozeElsewhere(st, at, parent, lk, p, ch, l);
      OtherLock(st, at[p := a], parent, lk, l, -1);
    }
  }

  lemma WakeDoze(st: seq<PState>, at: seq<At>, lk: seq<int>, p: nat, ch: int, l: nat)
    requires WakeInv(st, at) && LkInv(at, lk) && p < |st| && at[p] == SleepHeld(ch, l)
    ensures WakeInv(st, at[p := Window(ch, l)])
  {
    var at' := at[p := Window(ch, l)];
    assert HeldBy(p, LkOf(at[p]), lk);
    forall w | 0 <= w < |st| ensures Passed(st, at', at'[w]) {
      assert Passed(st, at, at[w]) && HeldBy(w, LkOf(at[w]), lk);
    }
  }

  lemma DozeElsewhere(st: seq<PState>, at: seq<At>, parent: seq<int>, lk: seq<int>, p: nat, ch: int, l: nat)
    requires WaitInv(st, at, parent, lk) && p < |st| && l != WAIT_LOCK && lk[WAIT_LOCK] != p
    ensures WaitInv(st, at[p := Window(ch, l)], parent, lk)
  {
    var at' := at[p := Window(ch, l)];
    forall q | 0 <= q < |st| && Starves(st, at', parent, q) ensures Excused(at', lk, parent[q]) {
      assert Starves(st, at, parent, q);
    }
  }

  // The row of p changes while p holds none of the other locks.
  lemma RestRow(st: seq<PState>, at: seq<At>, chan: seq<int>, parent: seq<int>, maker: seq<int>, lk: seq<int>, p: nat,
      x: PState, a: At, chan': seq<int>)
    requires Rest(st, at, chan, parent, maker, lk) && p < |st| && LkOf(at[p]) == LkOf(a) == -1
    requires Calm(st[p], at[p], x, a) && (x == ZOMBIE ==> st[p] == ZOMBIE) && (st[p] == USED ==> x == USED)
    requires ChildOf(a) == ChildOf(at[p]) && (ExitPc(a) ==> p != INIT)
    requires ChanBut(chan, chan', p) && ChanOk(x, a, chan'[p])
    ensures Rest(st[p := x], at[p := a], chan', parent, maker, lk)
  {
    NotHolder(at, lk, p);
    LkKeep(at, lk, p, a);
    MakerRow(st, at, maker, p, x, a);
    WakeRow(st, at, p, x, a);
    WaitRow(st, at, parent, lk, p, x, a);
  }

  // One process is made RUNNABLE if it sleeps on target.
  lemma RestWoken(st: seq<PState>, at: seq<At>, chan: seq<int>, parent: seq<int>, maker: seq<int>, lk: seq<int>,
      k: nat, target: int)
    requires Rest(st, at, chan, parent, maker, lk) && k < |st| && (st[k] == SLEEPING ==> at[k].Asleep?)
    ensures Rest(st[k := WakeState(st[k], chan[k], target)], at, chan, parent, maker, lk)
  {
    var x := WakeState(st[k], chan[k], target);
    assert at[k := at[k]] == at && st[k := st[k]] == st;
    if x != st[k] {
      RestRow(st, at, chan, parent, maker, lk, k, x, at[k], chan);
    }
  }

  // wakeup(chan) is past k once it has tried k.
  lemma PassedOne(st: seq<PState>, at: seq<At>, chan: seq<int>, ch: int, l: nat, k: nat)
    requires ChanInv(st, at, chan) && k < |st| && Passed(st, at, Waking(ch, l, k)) && !at[k].Window?
    ensures Passed(st[k := WakeState(st[k], chan[k], ch)], at, Waking(ch, l, k + 1))
  {
    assert ChanOk(st[k], at[k], chan[k]);
    forall p | 0 <= p < |st| && p < k ensures !Dozing(st[p], at[p], ch, l) {
    }
  }

  lemma AwakeOne(st: seq<PState>, at: seq<At>, chan: seq<int>, p: nat)
    requires ChanInv(st, at, chan) && p < |st| && !at[p].Window?
    ensures ParentAwake(st[p := WakeState(st[p], chan[p], p)], at, p)
  {
    assert ChanOk(st[p], at[p], chan[p]);
  }

  // freeproc(k) of a dead child, or of one that never ran.
  lemma RestFreed(st: seq<PState>, at: seq<At>, chan: seq<int>, parent: seq<int>, maker: seq<int>, lk: seq<int>, k: nat)
    requires Rest(st, at, chan, parent, maker, lk) && k < |st| && st[k] == ZOMBIE
    requires at[k].ExitZombie? || at[k].Dying? || at[k].Dead?
    ensures Rest(st[k := UNUSED], at, chan[k := -1], parent[k := -1], maker, lk)
  {
    assert at[k := at[k]] == at;
    MakerRow(st, at, maker, k, UNUSED, at[k]);
    WakeRow(st, at, k, UNUSED, at[k]);
    WaitRow(st, at, parent, lk, k, UNUSED, at[k]);
    Orphan(st[k := UNUSED], at, parent, lk, k);
  }

  lemma Orphan(st: seq<PState>, at: seq<At>, parent: seq<int>, lk: seq<int>, k: nat)
    requires WaitInv(st, at, parent, lk) && k < |st| && st[k] != ZOMBIE
    requires lk[WAIT_LOCK] == k ==> !at[k].ExitWake? && !at[k].ExitHeld?
    ensures WaitInv(st, at, parent[k := -1], lk)
  {
    var parent' := parent[k := -1];
    forall q | 0 <= q < |st| && Starves(st, at, parent', q) ensures Excused(at, lk, parent'[q]) {
      assert Starves(st, at, parent, q);
    }
  }

  // exit(): p becomes a ZOMBIE. Its parent is awake.
  lemma RestZombie(st: seq<PState>, at: seq<At>, chan: seq<int>, parent: seq<int>, maker: seq<int>, lk: seq<int>,
      p: nat)
    requires Rest(st, at, chan, parent, maker, lk) && p < |st| && at[p] == ExitHeld && st[p] == RUNNING
    ensures Rest(st[p := ZOMBIE], at[p := ExitZombie], chan, parent, maker, lk)
  {
    LkKeep(at, lk, p, ExitZombie);
    MakerRow(st, at, maker, p, ZOMBIE, ExitZombie);
    WakeRow(st, at, p, ZOMBIE, ExitZombie);
    assert HeldBy(p, LkOf(at[p]), lk);
    NobodyStarves(st, at, parent, lk);
    var st', at' := st[p := ZOMBIE], at[p := ExitZombie];
    forall q | 0 <= q < |st| ensures !Starves(st', at', parent, q) {
      assert !Starves(st, at, parent, q);
    }
  }

  // --------------------------------------------------------------- reparent()

  lemma WaitAdvance(st: seq<PState>, at: seq<At>, parent: seq<int>, lk: seq<int>, p: nat, k: nat, j: nat)
    requires WaitInv(st, at, parent, lk) && p < |st| && lk[WAIT_LOCK] == p && at[p] == ReparentWake(k, j)
    requires j == INIT ==> ParentAwake(st, at, INIT)
    ensures WaitInv(st, at[p := ReparentWake(k, j + 1)], parent, lk)
  {
    var at' := at[p := ReparentWake(k, j + 1)];
    forall q | 0 <= q < |st| ensures !Starves(st, at', parent, q) {
      assert Starves(st, at', parent, q) ==> Starves(st, at, parent, q);
    }
  }

  lemma WaitFinish(st: seq<PState>, at: seq<At>, parent: seq<int>, lk: seq<int>, p: nat, k: nat, j: nat)
    requires WaitInv(st, at, parent, lk) && p < |st| && lk[WAIT_LOCK] == p && at[p] == ReparentWake(k, j) && j > INIT
    ensures WaitInv(st, at[p := Reparent(k + 1)], parent, lk)
  {
    NobodyStarves(st, at, parent, lk);
    var at' := at[p := Reparent(k + 1)];
    forall q | 0 <= q < |st| ensures !Starves(st, at', parent, q) {
      assert !Starves(st, at, parent, q);
    }
  }

  lemma WaitAdopt(st: seq<PState>, at: seq<At>, parent: seq<int>, lk: seq<int>, p: nat, k: nat)
    requires WaitInv(st, at, parent, lk) && p < |st| && k < |st| && lk[WAIT_LOCK] == p && at[p] == Reparent(k)
    ensures WaitInv(st, at[p := ReparentWake(k, 0)], parent[k := INIT], lk)
  {
    NobodyStarves(st, at, parent, lk);
    var at', parent' := at[p := ReparentWake(k, 0)], parent[k := INIT];
    forall q | 0 <= q < |st| && Starves(st, at', parent', q) ensures Excused(at', lk, parent'[q]) {
      assert !Starves(st, at, parent, q);
    }
  }

  // The other parts of the invariant when p moves on inside exit().
  lemma RestInExit(st: seq<PState>, at: seq<At>, chan: seq<int>, parent: seq<int>, maker: seq<int>, lk: seq<int>,
      p: nat, a: At,
      parent': seq<int>)
    requires Rest(st, at, chan, parent, maker, lk) && p < |st| && p != INIT && LkOf(at[p]) == LkOf(a) == WAIT_LOCK
    requires ExitPc(a) && WaitInv(st, at[p := a], parent', lk)
    ensures Rest(st, at[p := a], chan, parent', maker, lk)
  {
    assert st[p := st[p]] == st;
    LkKeep(at, lk, p, a);
    MakerRow(st, at, maker, p, st[p], a);
    WakeRow(st, at, p, st[p], a);
  }

  // ------------------------------------------------------------------ fork()

  lemma RestAlloc(st: seq<PState>, at: seq<At>, chan: seq<int>, parent: seq<int>, maker: seq<int>, lk: seq<int>,
      p: nat, k: nat)
    requires Rest(st, at, chan, parent, maker, lk) && p < |st| && k < |st| && p != k && at[p] == Run
    requires st[k] == UNUSED && LkOf(at[k]) == -1 && ChildOf(at[k]) == -1
    ensures Rest(st[k := USED], at[k := Dormant][p := ForkPub(k)], chan, parent, maker[k := p], lk)
  {
    RestRow(st, at, chan, parent, maker, lk, k, USED, Dormant, chan);
    var st1, at1 := st[k := USED], at[k := Dormant];
    var at2, maker' := at1[p := ForkPub(k)], maker[k := p];
    assert st1[p := st1[p]] == st1;
    NotHolder(at1, lk, p);
    LkKeep(at1, lk, p, ForkPub(k));
    WakeRow(st1, at1, p, st1[p], ForkPub(k));
    WaitRow(st1, at1, parent, lk, p, st1[p], ForkPub(k));
    forall q | 0 <= q < |st| ensures MakerOk(st1, at2, maker', q) {
      assert MakerOk(st, at, maker, q);
    }
  }

  // fork() sets the parent of the child, or starts it, or gives it up.
  lemma RestParent(st: seq<PState>, at: seq<At>, chan: seq<int>, parent: seq<int>, maker: seq<int>, lk: seq<int>,
      p: nat, k: nat)
    requires Rest(st, at, chan, parent, maker, lk) && p < |st| && at[p] == ForkPub(k) && lk[WAIT_LOCK] == -1
    ensures k < |st| && Rest(st, at[p := ForkRun(k)], chan, parent[k := p], maker, lk)
  {
    assert MakerOk(st, at, maker, p);
    RestMove(st, at, chan, parent, maker, lk, p, ForkRun(k), chan);
    var at', parent' := at[p := ForkRun(k)], parent[k := p];
    NobodyStarves(st, at', parent, lk);
    forall q | 0 <= q < |st| ensures !Starves(st, at', parent', q) {
      assert !Starves(st, at', parent, q);
    }
  }

  lemma RestChild(st: seq<PState>, at: seq<At>, chan: seq<int>, parent: seq<int>, maker: seq<int>, lk: seq<int>,
      p: nat, k: nat,
      x: PState, a: At)
    requires Rest(st, at, chan, parent, maker, lk) && p < |st| && (at[p] == ForkPub(k) || at[p] == ForkRun(k))
    requires k < |st| && at[k] == Dormant && ((x == RUNNABLE && a == Forkret) || (x == UNUSED && a == Dormant))
    ensures Rest(st[k := x], at[k := a][p := Run], chan, parent, maker, lk)
  {
    assert MakerOk(st, at, maker, p);
    RestMove(st, at, chan, parent, maker, lk, p, Run, chan);
    var at1 := at[p := Run];
    NotHolder(at1, lk, k);
    LkKeep(at1, lk, k, a);
    WakeRow(st, at1, k, x, a);
    WaitRow(st, at1, parent, lk, k, x, a);
    var st', at' := st[k := x], at1[k := a];
    assert at' == at[k := a][p := Run];
    forall q | 0 <= q < |st| ensures MakerOk(st', at', maker, q) {
      assert MakerOk(st, at, maker, q);
    }
  }

  lemma RestGiveUp(st: seq<PState>, at: seq<At>, chan: seq<int>, parent: seq<int>, maker: seq<int>, lk: seq<int>,
      p: nat, k: nat)
    requires Rest(st, at, chan, parent, maker, lk) && p < |st| && at[p] == ForkPub(k) && k < |st| && at[k] == Dormant
    requires p != k
    ensures Rest(st[k := UNUSED], at[p := Run], chan[k := -1], parent[k := -1], maker, lk)
  {
    RestChild(st, at, chan, parent, maker, lk, p, k, UNUSED, Dormant);
    assert at[k := Dormant] == at;
    NotHolder(at[p := Run], lk, k);
    Orphan(st[k := UNUSED], at[p := Run], parent, lk, k);
  }
}
