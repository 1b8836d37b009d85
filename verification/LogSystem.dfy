// Many processes sharing one log: begin_op(), log_write() and end_op() steps
// interleave with single disk writes of commit(), with crashes at any moment
// and with recovery, itself interrupted by further crashes.
module LogSystem {
  import opened Common
  import opened LogFormat
  import opened LogCrash

  datatype Proc =
    | Idle
    | Asleep             // in begin_op(), on channel &log
    | InOp(used: nat)    // between begin_op() and end_op(); appended used entries
    | Commits            // in end_op(), running commit()

  datatype Phase =
    | Running
    // the first done of the writes of commit(), or of booting, are on disk
    | Committing(done: nat, writes: seq<Write>, base: Disk)
    | Recovering(done: nat, writes: seq<Write>, base: Disk)

  // What callers did, in order; a crash forgets the part it loses.
  datatype Event = Began(p: nat) | Wrote(p: nat, b: nat, content: Block) | Ended(p: nat)

  datatype System = System(
    procs: seq<Proc>,
    outstanding: nat,
    lh: seq<nat>,             // log.lh.block[..n]
    mem: map<nat, Block>,     // pinned buffers of the open transaction
    disk: Disk,
    phase: Phase,
    hist: seq<Event>,
    durable: nat)             // the events up to here were committed

  datatype Step =
    | TryBegin(p: nat)
    | LogWrite(p: nat, b: nat, content: Block)
    | EndOp(p: nat)
    | CommitWrite
    | CommitDone
    | Crash
    | RecoverWrite
    | RecoverDone

  datatype Outcome = Next(s: System) | Panic(message: string) | Disabled

  function Wakeup(procs: seq<Proc>): (out: seq<Proc>)
    ensures |out| == |procs|
    ensures forall i :: 0 <= i < |out| ==> out[i] == (if procs[i] == Asleep then Idle else procs[i])
  {
    seq(|procs|, i requires 0 <= i < |procs| => if procs[i] == Asleep then Idle else procs[i])
  }

  // end of commit(): the committer returns and every sleeper wakes
  function Settle(procs: seq<Proc>): (out: seq<Proc>)
    ensures |out| == |procs|
    ensures forall i :: 0 <= i < |out| ==>
      out[i] == (if procs[i] == Asleep || procs[i] == Commits then Idle else procs[i])
  {
    seq(|procs|, i requires 0 <= i < |procs| =>
      if procs[i] == Asleep || procs[i] == Commits then Idle else procs[i])
  }

  function Absorb(lh: seq<nat>, b: nat): seq<nat> {
    if b in lh then lh else lh + [b]
  }

  function TryBeginStep(s: System, p: nat): Outcome
    requires p < |s.procs|
  {
    if !s.procs[p].Idle? || s.phase.Recovering? then Disabled
    else if s.phase.Committing? || |s.lh| + (s.outstanding + 1) * MAXOPBLOCKS > LOGSIZE then
      Next(s.(procs := s.procs[p := Asleep]))
    else
      Next(s.(procs := s.procs[p := InOp(0)], outstanding := s.outstanding + 1, hist := s.hist + [Began(p)]))
  }

  // The caller's side of the bargain: it is inside an operation that has so
  // far appended fewer than MAXOPBLOCKS entries, and b is a file system block.
  predicate MayLogWrite(r: Region, s: System, p: nat, b: nat, content: Block)
    requires p < |s.procs|
  {
    && s.procs[p].InOp? && s.procs[p].used < MAXOPBLOCKS
    && b in s.disk && !InLog(r, b) && content.Bytes?
  }

  function LogWriteStep(r: Region, s: System, p: nat, b: nat, content: Block): Outcome
    requires p < |s.procs|
  {
    if !MayLogWrite(r, s, p, b, content) then Disabled
    else if |s.lh| >= LOGSIZE || |s.lh| >= r.size - 1 then Panic("too big a transaction")
    else if s.outstanding < 1 then Panic("log_write outside of trans")
    else
      var used := s.procs[p].used + (if b in s.lh then 0 else 1);
      Next(s.(procs := s.procs[p := InOp(used)], lh := Absorb(s.lh, b), mem := s.mem[b := content],
              hist := s.hist + [Wrote(p, b, content)]))
  }

  ghost function StartCommit(r: Region, s: System): Phase {
    Committing(0, if Committable(r, s.disk, s.lh, s.mem) then CommitWrites(r, s.disk, s.lh, s.mem) else [], s.disk)
  }

  ghost function StartRecovery(r: Region, d: Disk): Phase {
    Recovering(0, if WellFormed(r, d) then RecoverWrites(r, d) else [], d)
  }

  ghost function EndOpStep(r: Region, s: System, p: nat): Outcome
    requires p < |s.procs|
  {
    if !s.procs[p].InOp? then Disabled
    else if s.phase.Committing? then Panic("log.committing")
    else if s.outstanding == 1 then
      Next(s.(procs := s.procs[p := Commits], outstanding := 0, phase := StartCommit(r, s),
              hist := s.hist + [Ended(p)]))
    else
      Next(s.(procs := Wakeup(s.procs[p := Idle]),
              outstanding := if s.outstanding > 0 then s.outstanding - 1 else 0,
              hist := s.hist + [Ended(p)]))
  }

  // How many events survive a crash in s.
  function Surviving(s: System): nat {
    if s.phase.Committing? && s.phase.done > |s.lh| then |s.hist| else s.durable
  }

  function CommitWriteStep(s: System): Outcome {
    if s.phase.Committing? && s.phase.done < |s.phase.writes| then
      var Committing(done, writes, base) := s.phase;
      Next(s.(disk := s.disk[writes[done].blockno := writes[done].content],
              phase := Committing(done + 1, writes, base)))
    else Disabled
  }

  function CommitDoneStep(s: System): Outcome {
    if s.phase.Committing? && s.phase.done == |s.phase.writes| then
      Next(s.(procs := Settle(s.procs), lh := [], mem := map[], phase := Running, durable := |s.hist|))
    else Disabled
  }

  ghost function CrashStep(r: Region, s: System): Outcome {
    if Surviving(s) > |s.hist| then Disabled
    else
      Next(System(seq(|s.procs|, i => Idle), 0, [], map[], s.disk, StartRecovery(r, s.disk),
                  s.hist[..Surviving(s)], Surviving(s)))
  }

  function RecoverWriteStep(s: System): Outcome {
    if s.phase.Recovering? && s.phase.done < |s.phase.writes| then
      var Recovering(done, writes, base) := s.phase;
      Next(s.(disk := s.disk[writes[done].blockno := writes[done].content],
              phase := Recovering(done + 1, writes, base)))
    else Disabled
  }

  function RecoverDoneStep(s: System): Outcome {
    if s.phase.Recovering? && s.phase.done == |s.phase.writes| then Next(s.(phase := Running))
    else Disabled
  }

  ghost function Step1(r: Region, s: System, step: Step): Outcome {
    match step
    case TryBegin(p) => if p < |s.procs| then TryBeginStep(s, p) else Disabled
    case LogWrite(p, b, content) => if p < |s.procs| then LogWriteStep(r, s, p, b, content) else Disabled
    case EndOp(p) => if p < |s.procs| then EndOpStep(r, s, p) else Disabled
    case CommitWrite => CommitWriteStep(s)
    case CommitDone => CommitDoneStep(s)
    case Crash => CrashStep(r, s)
    case RecoverWrite => RecoverWriteStep(s)
    case RecoverDone => RecoverDoneStep(s)
  }

  // A machine that has just booted from a freshly made file system.
  ghost predicate Init(r: Region, s: System) {
    && WellFormed(r, s.disk) && s.disk[r.start].named == []
    && (forall i :: 0 <= i < |s.procs| ==> s.procs[i] == Idle)
    && s.outstanding == 0 && s.lh == [] && s.mem == map[] && s.phase == Running
    && s.hist == [] && s.durable == 0
  }

  // The states of a run; steps that are disabled are not part of one.
  ghost predicate Run(r: Region, s: System, steps: seq<Step>, s': System)
    decreases |steps|
  {
    if steps == [] then s' == s
    else
      var mid := Step1(r, s, steps[0]);
      mid.Next? && Run(r, mid.s, steps[1..], s')
  }

  // ------------------------------------------------- space reservation

  function Ops(procs: seq<Proc>): nat {
    if procs == [] then 0
    else Ops(procs[..|procs| - 1]) + (if procs[|procs| - 1].InOp? then 1 else 0)
  }

  // Log entries that running operations may still append.
  function Reserved(procs: seq<Proc>): int {
    if procs == [] then 0
    else
      var q := procs[|procs| - 1];
      Reserved(procs[..|procs| - 1]) + (if q.InOp? then MAXOPBLOCKS - q.used else 0)
  }

  function Need(q: Proc): int {
    if q.InOp? then MAXOPBLOCKS - q.used else 0
  }

  lemma {:induction false} SumsUpdate(procs: seq<Proc>, p: nat, q: Proc)
    requires p < |procs|
    ensures Reserved(procs[p := q]) == Reserved(procs) - Need(procs[p]) + Need(q)
    ensures Ops(procs[p := q]) == Ops(procs) - (if procs[p].InOp? then 1 else 0) + (if q.InOp? then 1 else 0)
  {
    var n := |procs| - 1;
    if p == n {
      assert procs[p := q][..n] == procs[..n];
    } else {
      SumsUpdate(procs[..n], p, q);
      assert procs[p := q][..n] == procs[..n][p := q];
    }
  }

  // Waking sleepers, or finishing a commit, reserves nothing.
  lemma {:induction false} SumsSame(a: seq<Proc>, b: seq<Proc>)
    requires |a| == |b|
    requires forall i :: 0 <= i < |a| ==> (a[i].InOp? || b[i].InOp? ==> a[i] == b[i])
    ensures Reserved(a) == Reserved(b) && Ops(a) == Ops(b)
  {
    if a != [] {
      SumsSame(a[..|a| - 1], b[..|b| - 1]);
    }
  }

  lemma {:induction false} NoOps(procs: seq<Proc>)
    ensures (forall i :: 0 <= i < |procs| ==> !procs[i].InOp?) <==> Ops(procs) == 0
    ensures Ops(procs) == 0 ==> Reserved(procs) == 0
  {
    if procs != [] {
      var n := |procs| - 1;
      NoOps(procs[..n]);
      assert forall i :: 0 <= i < n ==> procs[i] == procs[..n][i];
    }
  }

  // Each operation reserves at most MAXOPBLOCKS, which is what begin_op() counts.
  lemma {:induction false} ReservedBound(procs: seq<Proc>)
    requires WithinBudget(procs)
    ensures 0 <= Reserved(procs) <= Ops(procs) * MAXOPBLOCKS
  {
    if procs != [] {
      ReservedBound(procs[..|procs| - 1]);
    }
  }

  ghost predicate WithinBudget(procs: seq<Proc>) {
    forall i :: 0 <= i < |procs| ==> procs[i].InOp? ==> procs[i].used <= MAXOPBLOCKS
  }

  ghost predicate Reservation(s: System) {
    && WithinBudget(s.procs)
    && s.outstanding == Ops(s.procs)
    && |s.lh| + Reserved(s.procs) <= LOGSIZE
    && (!s.phase.Running? ==> s.outstanding == 0)
    && (s.phase.Running? && s.outstanding == 0 ==>
          s.lh == [] && forall i :: 0 <= i < |s.procs| ==> s.procs[i] != Asleep)
    && (s.phase.Recovering? ==> s.lh == [] && forall i :: 0 <= i < |s.procs| ==> s.procs[i] == Idle)
    && (forall i :: 0 <= i < |s.procs| ==> s.procs[i] == Commits ==> s.phase.Committing?)
  }

  lemma ReserveBegin(s: System, p: nat)
    requires Reservation(s) && p < |s.procs|
    ensures var o := TryBeginStep(s, p);
            !o.Panic? && (o.Next? ==> Reservation(o.s))
  {
    ReservedBound(s.procs);
    SumsUpdate(s.procs, p, Asleep);
    SumsUpdate(s.procs, p, InOp(0));
  }

  // The check against LOGSIZE comes before absorption, so a call needs room
  // even when it will not append.
  lemma ReserveLogWrite(r: Region, s: System, p: nat, b: nat, content: Block)
    requires Reservation(s) && p < |s.procs| && LOGSIZE < r.size
    ensures var o := LogWriteStep(r, s, p, b, content);
            !o.Panic? && (o.Next? ==> Reservation(o.s))
  {
    NoOps(s.procs);
    if MayLogWrite(r, s, p, b, content) {
      SumsUpdate(s.procs, p, InOp(s.procs[p].used + (if b in s.lh then 0 else 1)));
      SumsUpdate(s.procs, p, Idle);
      ReservedBound(s.procs[p := Idle]);
    }
  }

  lemma ReserveEnd(r: Region, s: System, p: nat)
    requires Reservation(s) && p < |s.procs|
    ensures var o := EndOpStep(r, s, p);
            !o.Panic? && (o.Next? ==> Reservation(o.s))
  {
    NoOps(s.procs);
    SumsUpdate(s.procs, p, Commits);
    SumsUpdate(s.procs, p, Idle);
    SumsSame(s.procs[p := Idle], Wakeup(s.procs[p := Idle]));
  }

  lemma ReserveSettle(s: System, procs: seq<Proc>)
    requires Reservation(s) && s.outstanding == 0
    requires |procs| == |s.procs| && forall i :: 0 <= i < |procs| ==> !procs[i].InOp?
    ensures Ops(procs) == 0 && Reserved(procs) == 0
    ensures forall i :: 0 <= i < |procs| ==> !s.procs[i].InOp?
  {
    NoOps(s.procs);
    NoOps(procs);
  }

  // ------------------------------------------------------- durability

  // The operations that have begun and not ended.
  function Open(hist: seq<Event>): set<nat> {
    if hist == [] then {}
    else
      var before := Open(hist[..|hist| - 1]);
      match hist[|hist| - 1]
      case Began(p) => before + {p}
      case Wrote(_, _, _) => before
      case Ended(p) => before - {p}
  }

  // The home blocks after the writes of hist, starting from h.
  function Replay(h: Disk, hist: seq<Event>): Disk {
    if hist == [] then h
    else
      var before := Replay(h, hist[..|hist| - 1]);
      match hist[|hist| - 1]
      case Wrote(_, b, content) => before[b := content]
      case _ => before
  }

  lemma HistAppend(h: Disk, hist: seq<Event>, e: Event, k: nat)
    requires k <= |hist|
    ensures (hist + [e])[..k] == hist[..k]
    ensures e.Began? ==> Open(hist + [e]) == Open(hist) + {e.p}
    ensures e.Wrote? ==> Open(hist + [e]) == Open(hist)
    ensures e.Ended? ==> Open(hist + [e]) == Open(hist) - {e.p}
    ensures Replay(h, hist + [e]) == if e.Wrote? then Replay(h, hist)[e.b := e.content] else Replay(h, hist)
  {
    assert (hist + [e])[..|hist|] == hist;
  }

  ghost function Active(s: System): set<nat> {
    set p | 0 <= p < |s.procs| && s.procs[p].InOp?
  }

  ghost predicate Shape(r: Region, s: System) {
    && WellFormed(r, s.disk)
    && |s.lh| <= LOGSIZE
    && HomeBlocks(r, s.disk, s.lh)
    && s.mem.Keys == (set b | b in s.lh)
    && s.durable <= |s.hist|
    && Open(s.hist[..s.durable]) == {}
    && Open(s.hist) == Active(s)
  }

  ghost predicate Durable(r: Region, h: Disk, s: System)
    requires Shape(r, s)
  {
    match s.phase
    case Running =>
      && s.disk[r.start].named == []
      && Home(r, s.disk) == Replay(h, s.hist[..s.durable])
      && Home(r, s.disk) + s.mem == Replay(h, s.hist)
    case Committing(done, writes, base) =>
      && Committable(r, base, s.lh, s.mem)
      && writes == CommitWrites(r, base, s.lh, s.mem)
      && done <= |writes| && s.disk == Apply(base, writes[..done])
      && Home(r, base) == Replay(h, s.hist[..s.durable])
      && Home(r, base) + s.mem == Replay(h, s.hist)
    case Recovering(done, writes, base) =>
      && WellFormed(r, base)
      && writes == RecoverWrites(r, base)
      && done <= |writes| && s.disk == Apply(base, writes[..done])
      && Recovered(r, base) == Replay(h, s.hist)
      && s.durable == |s.hist|
  }

  ghost predicate Inv(r: Region, h: Disk, s: System) {
    Reservation(s) && Shape(r, s) && Durable(r, h, s)
  }

  // What a crash right now would leave: a prefix of history at which no
  // operation is under way.
  lemma CrashHere(r: Region, h: Disk, s: System)
    requires Inv(r, h, s)
    ensures Surviving(s) <= |s.hist|
    ensures Open(s.hist[..Surviving(s)]) == {}
    ensures Recovered(r, s.disk) == Replay(h, s.hist[..Surviving(s)])
  {
    assert s.hist[..|s.hist|] == s.hist;
    NoOps(s.procs);
    match s.phase {
      case Running =>
        assert Recovered(r, s.disk) == Home(r, s.disk);
      case Committing(done, writes, base) =>
        CommitCrashPoint(r, base, s.lh, s.mem, done);
      case Recovering(done, writes, base) =>
        RecoveryCrashPoint(r, base, done);
    }
  }

  lemma InvSleep(r: Region, h: Disk, s: System, p: nat)
    requires Inv(r, h, s) && p < |s.procs| && s.procs[p].Idle?
    ensures var s' := s.(procs := s.procs[p := Asleep]);
            Shape(r, s') && Durable(r, h, s')
  {
    var s' := s.(procs := s.procs[p := Asleep]);
    assert Active(s') == Active(s);
  }

  lemma InvBegin(r: Region, h: Disk, s: System, p: nat)
    requires Inv(r, h, s) && p < |s.procs| && TryBeginStep(s, p).Next?
    ensures Inv(r, h, TryBeginStep(s, p).s)
  {
    ReserveBegin(s, p);
    var s' := TryBeginStep(s, p).s;
    if s'.procs[p].Asleep? {
      InvSleep(r, h, s, p);
    } else {
      HistAppend(h, s.hist, Began(p), s.durable);
      assert Active(s') == Active(s) + {p};
    }
  }

  lemma InvLogWrite(r: Region, h: Disk, s: System, p: nat, b: nat, content: Block)
    requires Inv(r, h, s) && p < |s.procs| && LogWriteStep(r, s, p, b, content).Next?
    ensures Inv(r, h, LogWriteStep(r, s, p, b, content).s)
  {
    ReserveLogWrite(r, s, p, b, content);
    RunningWhileOps(s, p);
    var s' := LogWriteStep(r, s, p, b, content).s;
    HistAppend(h, s.hist, Wrote(p, b, content), s.durable);
    assert Active(s') == Active(s);
    assert Home(r, s.disk) + s'.mem == (Home(r, s.disk) + s.mem)[b := content];
  }

  lemma RunningWhileOps(s: System, p: nat)
    requires Reservation(s) && p < |s.procs| && s.procs[p].InOp?
    ensures s.phase.Running? && s.outstanding >= 1
    ensures s.outstanding == 1 ==> Active(s) == {p}
  {
    NoOps(s.procs);
    if s.outstanding == 1 {
      SumsUpdate(s.procs, p, Idle);
      var rest := s.procs[p := Idle];
      NoOps(rest);
      assert forall q :: 0 <= q < |rest| && q != p ==> rest[q] == s.procs[q];
      assert Active(s) == {p};
    }
  }

  // An end_op() that leaves other operations running.
  lemma InvEndWake(r: Region, h: Disk, s: System, p: nat)
    requires Inv(r, h, s) && p < |s.procs| && EndOpStep(r, s, p).Next? && s.outstanding != 1
    ensures Inv(r, h, EndOpStep(r, s, p).s)
  {
    ReserveEnd(r, s, p);
    RunningWhileOps(s, p);
    HistAppend(h, s.hist, Ended(p), s.durable);
    assert Active(EndOpStep(r, s, p).s) == Active(s) - {p};
  }

  // The end_op() of the last operation: commit() starts.
  lemma InvEndCommit(r: Region, h: Disk, s: System, p: nat)
    requires Inv(r, h, s) && p < |s.procs| && EndOpStep(r, s, p).Next? && s.outstanding == 1
    ensures Inv(r, h, EndOpStep(r, s, p).s)
  {
    ReserveEnd(r, s, p);
    RunningWhileOps(s, p);
    HistAppend(h, s.hist, Ended(p), s.durable);
    var s' := EndOpStep(r, s, p).s;
    assert s'.procs == s.procs[p := Commits];
    assert forall q :: q in Active(s') ==> q in Active(s) && q != p;
    assert s'.phase.writes[..0] == [];
  }

  lemma InvCommitWrite(r: Region, h: Disk, s: System)
    requires Inv(r, h, s) && CommitWriteStep(s).Next?
    ensures Inv(r, h, CommitWriteStep(s).s)
  {
    var s' := CommitWriteStep(s).s;
    var ws := s.phase.writes;
    ApplyPrefix(s.phase.base, ws, s.phase.done);
    assert s'.disk == Apply(s.phase.base, ws[..s.phase.done + 1]);
    CommitCrashPoint(r, s.phase.base, s.lh, s.mem, s.phase.done + 1);
    assert Active(s') == Active(s);
  }

  lemma ReserveCommitDone(s: System)
    requires Reservation(s) && CommitDoneStep(s).Next?
    ensures Reservation(CommitDoneStep(s).s)
    ensures Active(CommitDoneStep(s).s) == Active(s) == {}
  {
    NoOps(s.procs);
    ReserveSettle(s, Settle(s.procs));
  }

  lemma CommitDoneDisk(r: Region, h: Disk, s: System)
    requires Shape(r, s) && Durable(r, h, s) && CommitDoneStep(s).Next?
    ensures s.disk[r.start].named == [] && Home(r, s.disk) == Replay(h, s.hist)
  {
    CommitCrashPoint(r, s.phase.base, s.lh, s.mem, |s.phase.writes|);
    assert s.phase.writes[..|s.phase.writes|] == s.phase.writes;
  }

  lemma InvCommitDone(r: Region, h: Disk, s: System)
    requires Inv(r, h, s) && CommitDoneStep(s).Next?
    ensures Inv(r, h, CommitDoneStep(s).s)
  {
    ReserveCommitDone(s);
    CommitDoneDisk(r, h, s);
    assert s.hist[..|s.hist|] == s.hist;
    assert Home(r, s.disk) + map[] == Home(r, s.disk);
  }

  lemma ReserveCrash(r: Region, s: System)
    requires CrashStep(r, s).Next?
    ensures Reservation(CrashStep(r, s).s) && Active(CrashStep(r, s).s) == {}
  {
    NoOps(CrashStep(r, s).s.procs);
  }

  lemma InvCrash(r: Region, h: Disk, s: System)
    requires Inv(r, h, s)
    ensures CrashStep(r, s).Next? && Inv(r, h, CrashStep(r, s).s)
  {
    CrashHere(r, h, s);
    ReserveCrash(r, s);
    CrashDurable(r, h, s);
  }

  lemma CrashDurable(r: Region, h: Disk, s: System)
    requires WellFormed(r, s.disk) && Surviving(s) <= |s.hist|
    requires Open(s.hist[..Surviving(s)]) == {}
    requires Recovered(r, s.disk) == Replay(h, s.hist[..Surviving(s)])
    requires Active(CrashStep(r, s).s) == {}
    ensures Shape(r, CrashStep(r, s).s) && Durable(r, h, CrashStep(r, s).s)
  {
    var s' := CrashStep(r, s).s;
    assert s'.phase.writes[..0] == [];
    assert s'.hist[..|s'.hist|] == s'.hist;
  }

  lemma InvRecoverWrite(r: Region, h: Disk, s: System)
    requires Inv(r, h, s) && RecoverWriteStep(s).Next?
    ensures Inv(r, h, RecoverWriteStep(s).s)
  {
    var s' := RecoverWriteStep(s).s;
    var base, k := s.phase.base, s.phase.done;
    var ws := s.phase.writes;
    RecoveryCrashPoint(r, base, k + 1);
    ApplyPrefix(base, ws, k);
    assert Active(s') == Active(s);
  }

  lemma InvRecoverDone(r: Region, h: Disk, s: System)
    requires Inv(r, h, s) && RecoverDoneStep(s).Next?
    ensures Inv(r, h, RecoverDoneStep(s).s)
  {
    var s' := RecoverDoneStep(s).s;
    var ws := s.phase.writes;
    RecoveryCrashPoint(r, s.phase.base, |ws|);
    assert ws[..|ws|] == ws;
    assert s'.hist[..|s'.hist|] == s'.hist;
    assert Active(s') == Active(s);
    assert Home(r, s'.disk) + s'.mem == Home(r, s'.disk);
  }

  lemma InvStep(r: Region, h: Disk, s: System, step: Step)
    requires Inv(r, h, s)
    ensures !Step1(r, s, step).Panic?
    ensures Step1(r, s, step).Next? ==> Inv(r, h, Step1(r, s, step).s)
  {
    var ok := Step1(r, s, step).Next?;
    match step {
      case TryBegin(p) => if ok { InvBegin(r, h, s, p); }
      case LogWrite(p, b, content) =>
        if p < |s.procs| { ReserveLogWrite(r, s, p, b, content); }
        if ok { InvLogWrite(r, h, s, p, b, content); }
      case EndOp(p) =>
        if p < |s.procs| { ReserveEnd(r, s, p); }
        if ok && s.outstanding == 1 { InvEndCommit(r, h, s, p); }
        if ok && s.outstanding != 1 { InvEndWake(r, h, s, p); }
      case CommitWrite => if ok { InvCommitWrite(r, h, s); }
      case CommitDone => if ok { InvCommitDone(r, h, s); }
      case Crash => InvCrash(r, h, s);
      case RecoverWrite => if ok { InvRecoverWrite(r, h, s); }
      case RecoverDone => if ok { InvRecoverDone(r, h, s); }
    }
  }

  lemma {:induction false} InvRun(r: Region, h: Disk, s: System, steps: seq<Step>, s': System)
    requires Inv(r, h, s) && Run(r, s, steps, s')
    ensures Inv(r, h, s')
    decreases |steps|
  {
    if steps != [] {
      InvStep(r, h, s, steps[0]);
      InvRun(r, h, Step1(r, s, steps[0]).s, steps[1..], s');
    }
  }

  lemma InitInv(r: Region, s: System)
    requires Init(r, s)
    ensures Inv(r, Home(r, s.disk), s)
  {
    NoOps(s.procs);
    assert Home(r, s.disk) + s.mem == Home(r, s.disk);
  }

  // Booting from any disk with a readable header, left behind by a crash or not, ends
  // in an initial state with the home blocks that were recoverable.
  lemma Booted(r: Region, d: Disk, n: nat) returns (s: System)
    requires WellFormed(r, d)
    ensures Init(r, s) && |s.procs| == n
    ensures s.disk == Apply(d, RecoverWrites(r, d)) && Home(r, s.disk) == Recovered(r, d)
  {
    RecoveryCompletes(r, d);
    s := System(seq(n, _ => Idle), 0, [], map[], Apply(d, RecoverWrites(r, d)), Running, [], 0);
  }

  // ------------------------------------------------------ main theorems

  // In every state of every run, whatever step comes next, no panic in
  // log_write() or end_op() is reached.
  lemma NoPanic(r: Region, s0: System, steps: seq<Step>, s: System, step: Step)
    requires Init(r, s0) && Run(r, s0, steps, s)
    ensures !Step1(r, s, step).Panic?
  {
    InitInv(r, s0);
    InvRun(r, Home(r, s0.disk), s0, steps, s);
    InvStep(r, Home(r, s0.disk), s, step);
  }

  // Crash at any moment of any run, then let booting crash any number of
  // times: the file system is exactly the result of some prefix of what the
  // callers did, and no operation straddles the end of that prefix. The
  // prefix holds everything committed before, and is the whole history once
  // the header of the current commit is on disk.
  lemma CrashAtomicity(r: Region, s0: System, steps: seq<Step>, s: System, crashes: seq<nat>, final: Disk)
    requires Init(r, s0) && Run(r, s0, steps, s)
    requires WellFormed(r, s.disk) && CrashChain(r, s.disk, crashes, final)
    ensures s.durable <= Surviving(s) <= |s.hist|
    ensures Home(r, final) == Replay(Home(r, s0.disk), s.hist[..Surviving(s)])
    ensures Open(s.hist[..Surviving(s)]) == {}
    ensures forall i, j :: Brackets(s.hist, i, j) ==> j < Surviving(s) || Surviving(s) <= i
  {
    InitInv(r, s0);
    InvRun(r, Home(r, s0.disk), s0, steps, s);
    CrashHere(r, Home(r, s0.disk), s);
    AnyCrashesRecover(r, s.disk, crashes, final);
    forall i, j | Brackets(s.hist, i, j)
      ensures j < Surviving(s) || Surviving(s) <= i
    {
      if i < Surviving(s) <= j {
        StaysOpen(s.hist, i, j, Surviving(s));
      }
    }
  }

  // hist[i..j] runs from an operation's begin_op() to its end_op().
  predicate Brackets(hist: seq<Event>, i: int, j: int) {
    && 0 <= i < j < |hist|
    && hist[i].Began? && hist[j] == Ended(hist[i].p)
    && forall k :: i < k < j ==> hist[k] != Ended(hist[i].p)
  }

  lemma {:induction false} StaysOpen(hist: seq<Event>, i: int, j: int, k: int)
    requires Brackets(hist, i, j) && i < k <= j
    ensures hist[i].p in Open(hist[..k])
    decreases k
  {
    assert hist[..k][..k - 1] == hist[..k - 1];
    if k > i + 1 {
      StaysOpen(hist, i, j, k - 1);
    }
  }

  // Event m is the last write of block b in hist.
  ghost predicate LastWrote(hist: seq<Event>, m: nat, b: nat, content: Block) {
    && m < |hist| && hist[m].Wrote? && hist[m].b == b && hist[m].content == content
    && forall k :: m < k < |hist| ==> !(hist[k].Wrote? && hist[k].b == b)
  }

  lemma {:induction false} ReplayLast(h: Disk, hist: seq<Event>, m: nat, b: nat, content: Block)
    requires LastWrote(hist, m, b, content)
    ensures b in Replay(h, hist) && Replay(h, hist)[b] == content
    decreases |hist|
  {
    if m < |hist| - 1 {
      ReplayLast(h, hist[..|hist| - 1], m, b, content);
    }
  }

  predicate Rewrites(step: Step, b: nat) {
    step.LogWrite? && step.b == b
  }

  predicate Leaves(steps: seq<Step>, b: nat) {
    forall k :: 0 <= k < |steps| ==> !Rewrites(steps[k], b)
  }

  // What a step adds to the history.
  lemma Records(r: Region, s: System, step: Step, b: nat)
    requires Step1(r, s, step).Next? && !step.Crash? && !Rewrites(step, b)
    ensures var s' := Step1(r, s, step).s;
            && (s'.hist == s.hist || exists e: Event :: !(e.Wrote? && e.b == b) && s'.hist == s.hist + [e])
            && s'.durable == if step.CommitDone? then |s.hist| else s.durable
  {
  }

  lemma OneMore(hist: seq<Event>, e: Event, m: nat, b: nat, content: Block)
    requires LastWrote(hist, m, b, content) && !(e.Wrote? && e.b == b)
    ensures LastWrote(hist + [e], m, b, content)
  {
  }

  lemma CrashKeeps(r: Region, h: Disk, s: System, m: nat, b: nat, content: Block)
    requires Inv(r, h, s) && Step1(r, s, Crash).Next? && LastWrote(s.hist, m, b, content) && m < s.durable
    ensures var s' := Step1(r, s, Crash).s;
            LastWrote(s'.hist, m, b, content) && m < s'.durable
  {
    CrashHere(r, h, s);
  }

  // The write stays the last one, and is not forgotten once it is durable.
  lemma WriteStays(r: Region, h: Disk, s: System, step: Step, m: nat, b: nat, content: Block)
    requires Inv(r, h, s) && Step1(r, s, step).Next? && LastWrote(s.hist, m, b, content) && !Rewrites(step, b)
    requires step.Crash? ==> m < s.durable
    ensures var s' := Step1(r, s, step).s;
            && LastWrote(s'.hist, m, b, content) && (m < s.durable || step.CommitDone? ==> m < s'.durable)
  {
    if step.Crash? {
      CrashKeeps(r, h, s, m, b, content);
    } else {
      var s' := Step1(r, s, step).s;
      Records(r, s, step, b);
      if s'.hist != s.hist {
        var e: Event :| !(e.Wrote? && e.b == b) && s'.hist == s.hist + [e];
        OneMore(s.hist, e, m, b, content);
      }
    }
  }

  lemma {:induction false} WriteStaysRun(r: Region, h: Disk, s: System, steps: seq<Step>, s': System, m: nat, b: nat,
      content: Block)
    requires Inv(r, h, s) && Run(r, s, steps, s') && LastWrote(s.hist, m, b, content)
    requires Leaves(steps, b)
    requires m < s.durable || Crash !in steps
    ensures Inv(r, h, s') && LastWrote(s'.hist, m, b, content)
    ensures m < s.durable || CommitDone in steps ==> m < s'.durable
    decreases |steps|
  {
    if steps != [] {
      InvStep(r, h, s, steps[0]);
      WriteStays(r, h, s, steps[0], m, b, content);
      assert steps == [steps[0]] + steps[1..];
      WriteStaysRun(r, h, Step1(r, s, steps[0]).s, steps[1..], s', m, b, content);
    }
  }

  lemma WriteRecorded(r: Region, s0: System, before: seq<Step>, s: System, p: nat, b: nat, content: Block)
    requires Init(r, s0) && Run(r, s0, before, s) && Step1(r, s, LogWrite(p, b, content)).Next?
    ensures var next := Step1(r, s, LogWrite(p, b, content)).s;
            Inv(r, Home(r, s0.disk), next) && LastWrote(next.hist, |s.hist|, b, content)
  {
    InitInv(r, s0);
    InvRun(r, Home(r, s0.disk), s0, before, s);
    InvStep(r, Home(r, s0.disk), s, LogWrite(p, b, content));
  }

  lemma DurableRecovers(r: Region, h: Disk, s: System, m: nat, b: nat, content: Block, crashes: seq<nat>, final: Disk)
    requires Inv(r, h, s) && LastWrote(s.hist, m, b, content) && m < s.durable
    requires WellFormed(r, s.disk) && CrashChain(r, s.disk, crashes, final)
    ensures b in final && final[b] == content
  {
    CrashHere(r, h, s);
    var kept := s.hist[..Surviving(s)];
    assert LastWrote(kept, m, b, content);
    ReplayLast(h, kept, m, b, content);
    AnyCrashesRecover(r, s.disk, crashes, final);
  }

  // Once a commit has finished after a log_write(), the block has that content after any
  // crashes, until somebody writes it again.
  lemma Durability(r: Region, s0: System, before: seq<Step>, s: System, p: nat, b: nat, content: Block,
      during: seq<Step>, s1: System, after: seq<Step>, s2: System, crashes: seq<nat>, final: Disk)
    requires Init(r, s0) && Run(r, s0, before, s) && Step1(r, s, LogWrite(p, b, content)).Next?
    requires Run(r, Step1(r, s, LogWrite(p, b, content)).s, during, s1) && Run(r, s1, after, s2)
    requires Crash !in during && CommitDone in during && Leaves(during, b) && Leaves(after, b)
    requires WellFormed(r, s2.disk) && CrashChain(r, s2.disk, crashes, final)
    ensures b in final && final[b] == content
  {
    var h, m := Home(r, s0.disk), |s.hist|;
    WriteRecorded(r, s0, before, s, p, b, content);
    WriteStaysRun(r, h, Step1(r, s, LogWrite(p, b, content)).s, during, s1, m, b, content);
    WriteStaysRun(r, h, s1, after, s2, m, b, content);
    DurableRecovers(r, h, s2, m, b, content, crashes, final);
  }

  // A process asleep in begin_op() is never stranded: some operation is
  // outstanding or a commit is under way.
  lemma SleeperHasWaker(r: Region, s0: System, steps: seq<Step>, s: System, p: nat)
    requires Init(r, s0) && Run(r, s0, steps, s)
    requires p < |s.procs| && s.procs[p] == Asleep
    ensures s.phase.Committing? || (s.phase.Running? && exists q :: 0 <= q < |s.procs| && s.procs[q].InOp?)
  {
    InitInv(r, s0);
    InvRun(r, Home(r, s0.disk), s0, steps, s);
    NoOps(s.procs);
  }

  // The rest of the commit under way, and the wakeup at its end.
  lemma {:induction false} CommitFinishes(r: Region, h: Disk, s: System, p: nat)
      returns (steps: seq<Step>, s': System)
    requires Inv(r, h, s) && s.phase.Committing?
    requires p < |s.procs| && s.procs[p] == Asleep
    ensures Run(r, s, steps, s') && p < |s'.procs| && s'.procs[p] == Idle
    decreases |s.phase.writes| - s.phase.done
  {
    var step := if s.phase.done < |s.phase.writes| then CommitWrite else CommitDone;
    var mid := Step1(r, s, step).s;
    InvStep(r, h, s, step);
    if step == CommitWrite {
      var rest;
      rest, s' := CommitFinishes(r, h, mid, p);
      steps := [step] + rest;
      assert steps[1..] == rest;
    } else {
      steps, s' := [step], mid;
      assert steps[1..] == [];
    }
  }

  // ... and whoever is outstanding does wake it: from every reachable state
  // one end_op(), with the commit it may trigger, makes the sleeper runnable.
  lemma SleeperWakes(r: Region, s0: System, steps: seq<Step>, s: System, p: nat)
      returns (more: seq<Step>, s': System)
    requires Init(r, s0) && Run(r, s0, steps, s)
    requires p < |s.procs| && s.procs[p] == Asleep
    ensures Run(r, s, more, s') && p < |s'.procs| && s'.procs[p] == Idle
  {
    var h := Home(r, s0.disk);
    InitInv(r, s0);
    InvRun(r, h, s0, steps, s);
    SleeperHasWaker(r, s0, steps, s, p);
    if s.phase.Committing? {
      more, s' := CommitFinishes(r, h, s, p);
    } else {
      var q :| 0 <= q < |s.procs| && s.procs[q].InOp?;
      var mid := Step1(r, s, EndOp(q)).s;
      NoOps(s.procs);
      InvStep(r, h, s, EndOp(q));
      if mid.phase.Committing? {
        var rest;
        rest, s' := CommitFinishes(r, h, mid, p);
        more := [EndOp(q)] + rest;
        assert more[1..] == rest;
      } else {
        more, s' := [EndOp(q)], mid;
        assert more[1..] == [];
      }
    }
  }
}
