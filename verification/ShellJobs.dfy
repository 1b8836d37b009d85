// The shell's table of background jobs, between fork() and the reaping of children by
// wait() and wait_noblock(), over command lines: what the shell process itself does in
// runcmd(). Its children are other processes.
module ShellJobs {
  import opened ShellSpec

  const NPROC := 64

  // The line that announces the end of a background job.
  datatype Report = Exited(pid: int, status: int)

  // ---------------------------------------------------------- table as value

  // No pid is listed twice; 0 is a free slot.
  ghost predicate DistinctJobs(t: seq<int>) {
    forall i, j :: 0 <= i < j < |t| && t[i] != 0 ==> t[i] != t[j]
  }

  ghost predicate Children(t: seq<int>, children: set<int>) {
    forall i :: 0 <= i < |t| ==> t[i] == 0 || t[i] in children
  }

  // Distinct members of a set are no more than the set holds.
  lemma {:induction false} Pigeonhole(t: seq<int>, children: set<int>)
    requires forall i, j :: 0 <= i < j < |t| ==> t[i] != t[j]
    requires forall i :: 0 <= i < |t| ==> t[i] in children
    ensures |t| <= |children|
    decreases |t|
  {
    if t != [] {
      var last := t[|t| - 1];
      Pigeonhole(t[..|t| - 1], children - {last});
    }
  }

  // Fewer children than slots leave a free one.
  lemma FreeSlot(t: seq<int>, children: set<int>)
    requires DistinctJobs(t) && Children(t, children) && |children| < |t|
    ensures exists i :: 0 <= i < |t| && t[i] == 0
  {
    if forall i :: 0 <= i < |t| ==> t[i] != 0 {
      Pigeonhole(t, children);
    }
  }

  function Pids(out: seq<Report>): (r: seq<int>)
    ensures |r| == |out| && forall i {:trigger r[i]} :: 0 <= i < |r| ==> r[i] == out[i].pid
  {
    if out == [] then [] else Pids(out[..|out| - 1]) + [out[|out| - 1].pid]
  }

  // Every job ever recorded is either in the table and not reaped, or was
  // reported, once, and is not a child any more.
  ghost predicate History(t: seq<int>, children: set<int>, out: seq<Report>, recorded: set<int>) {
    && (forall pid :: pid in recorded <==> pid != 0 && (pid in t || pid in Pids(out)))
    && (forall i :: 0 <= i < |out| ==> out[i].pid !in children && out[i].pid > 0)
    && (forall i, j :: 0 <= i < j < |out| ==> out[i].pid != out[j].pid)
  }

  lemma Forked(t: seq<int>, children: set<int>, out: seq<Report>, recorded: set<int>, pid: int, top: int)
    requires History(t, children, out, recorded) && pid > top && forall x :: x in recorded ==> x <= top
    ensures History(t, children + {pid}, out, recorded)
  {
    forall i | 0 <= i < |out| ensures out[i].pid != pid {
      assert Pids(out)[i] in recorded;
    }
  }

  lemma SomeMember(s: set<int>)
    ensures s == {} || exists x :: x in s
  {
    if forall x :: x !in s {
      assert s == {};
    }
  }

  lemma Reaped(t: seq<int>, children: set<int>, out: seq<Report>, recorded: set<int>, pid: int)
    requires History(t, children, out, recorded)
    ensures History(t, children - {pid}, out, recorded)
  {
  }

  lemma Announced(t: seq<int>, children: set<int>, out: seq<Report>, recorded: set<int>, i: nat, status: int)
    requires History(t, children, out, recorded) && DistinctJobs(t) && Children(t, children)
    requires i < |t| && t[i] > 0 && t[i] in children
    ensures History(t[i := 0], children - {t[i]}, out + [Exited(t[i], status)], recorded)
  {
    var pid, t', out' := t[i], t[i := 0], out + [Exited(t[i], status)];
    assert out'[..|out|] == out && Pids(out') == Pids(out) + [pid];
    forall x ensures x in recorded <==> x != 0 && (x in t' || x in Pids(out')) {
      if x in t && x != pid && x != 0 {
        var k :| 0 <= k < |t| && t[k] == x;
        assert t'[k] == x;
      }
    }
  }

  lemma Recorded(t: seq<int>, children: set<int>, out: seq<Report>, recorded: set<int>, i: nat, pid: int)
    requires History(t, children, out, recorded) && i < |t| && t[i] == 0 && pid > 0 && pid in children
    ensures History(t[i := pid], children, out, recorded + {pid})
  {
    var t' := t[i := pid];
    forall x ensures x in recorded + {pid} <==> x != 0 && (x in t' || x in Pids(out)) {
      if x in t && x != 0 {
        var k :| 0 <= k < |t| && t[k] == x;
        assert t'[k] == x;
      }
      assert t'[i] == pid;
    }
  }

  // --------------------------------------------------------------- commands

  // A parsed command as runcmd() sees it: simple commands have a back field, which is 0
  // after parsing.
  datatype Task =
    | Simple(words: seq<string>, back: bool)
    | Redirected(sub: Task)
    | Piped(left: Task, right: Task)
    | Listed(left: Task, right: Task)
    | Backed(sub: Task)

  function TaskOf(t: Tree): Task {
    match t
    case TExec(ws) => Simple(ws, false)
    case TRedir(u, _, _) => Redirected(TaskOf(u))
    case TPipe(l, r) => Piped(TaskOf(l), TaskOf(r))
    case TList(l, r) => Listed(TaskOf(l), TaskOf(r))
    case TBack(u) => Backed(TaskOf(u))
  }

  function Size(x: Task): nat {
    match x
    case Simple(_, _) => 1
    case Redirected(u) => 1 + Size(u)
    case Piped(l, r) => 1 + Size(l) + Size(r)
    case Listed(l, r) => 1 + Size(l) + Size(r)
    case Backed(u) => 1 + Size(u)
  }

  // set_background_flag(): a command that is in the background anyway is left alone.
  function SetBack(x: Task): (y: Task)
    ensures Size(y) == Size(x)
  {
    match x
    case Simple(ws, _) => Simple(ws, true)
    case Redirected(u) => Redirected(SetBack(u))
    case Piped(l, r) => Piped(SetBack(l), SetBack(r))
    case Listed(l, r) => Listed(SetBack(l), SetBack(r))
    case Backed(u) => x
  }

  // Neither empty nor built in.
  predicate Forks(ws: seq<string>) {
    ws != [] && ws[0] != "cd" && ws[0] != "jobs"
  }

  // The shell starts a simple command, or the two sides of a pipeline.
  datatype Launch = One(back: bool) | Two(back: bool)

  // What the shell starts for x, when asked tells which of the files of redirections it could
  // open, in order. A file that cannot be opened keeps the command from running.
  ghost predicate Does(x: Task, plan: seq<Launch>, asked: seq<bool>)
    decreases Size(x)
  {
    match x
    case Simple(ws, back) => asked == [] && plan == if Forks(ws) then [One(back)] else []
    case Redirected(u) =>
      asked != [] && if asked[0] then Does(u, plan, asked[1..]) else plan == [] && |asked| == 1
    case Piped(l, r) => asked == [] && plan == [Two(l.Simple? && l.back)]
    case Listed(l, r) => exists k, j :: DoesBoth(l, r, plan, asked, k, j)
    case Backed(u) => Does(SetBack(u), plan, asked)
  }

  ghost predicate DoesBoth(l: Task, r: Task, plan: seq<Launch>, asked: seq<bool>, k: int, j: int)
    decreases Size(l) + Size(r), 0
  {
    0 <= k <= |plan| && 0 <= j <= |asked| && Does(l, plan[..k], asked[..j]) && Does(r, plan[k..], asked[j..])
  }

  // The answers determine the launches.
  lemma {:induction false} OnePlan(x: Task, plan: seq<Launch>, asked: seq<bool>, plan': seq<Launch>, asked': seq<bool>)
    requires Does(x, plan, asked) && Does(x, plan', asked') && asked <= asked'
    ensures asked == asked' && plan == plan'
    decreases Size(x)
  {
    match x
    case Simple(_, _) =>
    case Redirected(u) =>
      if asked[0] {
        OnePlan(u, plan, asked[1..], plan', asked'[1..]);
      }
    case Piped(_, _) =>
    case Listed(l, r) =>
      var k, j :| DoesBoth(l, r, plan, asked, k, j);
      var k', j' :| DoesBoth(l, r, plan', asked', k', j');
      if j <= j' {
        assert asked[..j] <= asked'[..j'];
        OnePlan(l, plan[..k], asked[..j], plan'[..k'], asked'[..j']);
      } else {
        assert asked'[..j'] <= asked[..j];
        OnePlan(l, plan'[..k'], asked'[..j'], plan[..k], asked[..j]);
      }
      assert asked[j..] <= asked'[j'..];
      OnePlan(r, plan[k..], asked[j..], plan'[k'..], asked'[j'..]);
      assert plan == plan[..k] + plan[k..] && plan' == plan'[..k'] + plan'[k'..];
      assert asked == asked[..j] + asked[j..] && asked' == asked'[..j'] + asked'[j'..];
    case Backed(u) => OnePlan(SetBack(u), plan, asked, plan', asked');
  }

  function Backs(plan: seq<Launch>): nat {
    if plan == [] then 0 else Backs(plan[..|plan| - 1]) + if plan[|plan| - 1].back then 1 else 0
  }

  lemma {:induction false} BacksConcat(a: seq<Launch>, b: seq<Launch>)
    ensures Backs(a + b) == Backs(a) + Backs(b)
    decreases |b|
  {
    if b == [] {
      assert a + b == a;
    } else {
      var n := |b| - 1;
      BacksConcat(a, b[..n]);
      assert (a + b)[..|a| + n] == a + b[..n] && (a + b)[|a| + n] == b[n];
    }
  }

  // The processes that a plan takes.
  function Spawns(plan: seq<Launch>): nat {
    if plan == [] then 0 else Spawns(plan[..|plan| - 1]) + if plan[|plan| - 1].One? then 1 else 2
  }

  // The plan was carried out with processes pids, in order: those in the foreground are not
  // children any more, and of those in the background the only or left one is recorded.
  ghost predicate Ran(plan: seq<Launch>, pids: seq<int>, children: set<int>, recorded: set<int>)
    decreases |plan|
  {
    if plan == [] then pids == []
    else
      var last, n := plan[|plan| - 1], |pids| - (if plan[|plan| - 1].One? then 1 else 2);
      n >= 0 && Ran(plan[..|plan| - 1], pids[..n], children, recorded) &&
      (if last.back then pids[n] in recorded && (last.Two? ==> pids[n + 1] !in recorded)
       else forall k :: n <= k < |pids| ==> pids[k] !in children && pids[k] !in recorded)
  }

  lemma {:induction false} RanAll(plan: seq<Launch>, pids: seq<int>, children: set<int>, recorded: set<int>)
    requires Ran(plan, pids, children, recorded)
    ensures |pids| == Spawns(plan)
    decreases |plan|
  {
    if plan != [] {
      var n := |pids| - (if plan[|plan| - 1].One? then 1 else 2);
      RanAll(plan[..|plan| - 1], pids[..n], children, recorded);
    }
  }

  // It stays so while other processes come and go.
  lemma {:induction false} RanLater(plan: seq<Launch>, pids: seq<int>, children: set<int>, recorded: set<int>,
      children': set<int>, recorded': set<int>)
    requires Ran(plan, pids, children, recorded)
    requires forall k :: 0 <= k < |pids| ==> pids[k] in children' ==> pids[k] in children
    requires forall k :: 0 <= k < |pids| ==> (pids[k] in recorded' <==> pids[k] in recorded)
    ensures Ran(plan, pids, children', recorded')
    decreases |plan|
  {
    if plan != [] {
      var n := |pids| - (if plan[|plan| - 1].One? then 1 else 2);
      RanLater(plan[..|plan| - 1], pids[..n], children, recorded, children', recorded');
    }
  }

  lemma {:induction false} RanConcat(a: seq<Launch>, x: seq<int>, b: seq<Launch>, y: seq<int>, children: set<int>,
      recorded: set<int>)
    requires Ran(a, x, children, recorded) && Ran(b, y, children, recorded)
    ensures Ran(a + b, x + y, children, recorded)
    decreases |b|
  {
    if b == [] {
      assert a + b == a && x + y == x;
    } else {
      var n := |y| - (if b[|b| - 1].One? then 1 else 2);
      RanConcat(a, x, b[..|b| - 1], y[..n], children, recorded);
      assert (a + b)[..|a + b| - 1] == a + b[..|b| - 1] && (x + y)[..|x| + n] == x + y[..n];
    }
  }

  ghost predicate AllBack(plan: seq<Launch>) {
    forall k :: 0 <= k < |plan| ==> plan[k].back
  }

  // Every pipeline that the shell itself starts has a plain simple command on its left.
  predicate PlainLeft(x: Task) {
    match x
    case Simple(_, _) => true
    case Redirected(u) => PlainLeft(u)
    case Piped(l, _) => l.Simple?
    case Listed(l, r) => PlainLeft(l) && PlainLeft(r)
    case Backed(u) => PlainLeft(u)
  }

  // The simple commands are marked, except those that a & of their own will mark.
  predicate Marked(x: Task) {
    match x
    case Simple(_, back) => back
    case Redirected(u) => Marked(u)
    case Piped(l, r) => Marked(l) && Marked(r)
    case Listed(l, r) => Marked(l) && Marked(r)
    case Backed(_) => true
  }

  lemma {:induction false} SetBackMarks(x: Task)
    ensures Marked(SetBack(x)) && (PlainLeft(SetBack(x)) <==> PlainLeft(x))
    decreases x
  {
    match x
    case Simple(_, _) =>
    case Redirected(u) => SetBackMarks(u);
    case Piped(l, r) => SetBackMarks(l); SetBackMarks(r);
    case Listed(l, r) => SetBackMarks(l); SetBackMarks(r);
    case Backed(_) =>
  }

  lemma {:induction false} MarkedRuns(x: Task, plan: seq<Launch>, asked: seq<bool>)
    requires Marked(x) && PlainLeft(x) && Does(x, plan, asked)
    ensures AllBack(plan)
    decreases Size(x)
  {
    match x
    case Simple(_, _) =>
    case Redirected(u) =>
      if asked[0] {
        MarkedRuns(u, plan, asked[1..]);
      }
    case Piped(_, _) =>
    case Listed(l, r) =>
      var k, j :| DoesBoth(l, r, plan, asked, k, j);
      MarkedRuns(l, plan[..k], asked[..j]);
      MarkedRuns(r, plan[k..], asked[j..]);
      assert plan == plan[..k] + plan[k..];
    case Backed(u) =>
      SetBackMarks(u);
      MarkedRuns(SetBack(u), plan, asked);
  }

  lemma Both(l: Task, r: Task, a: seq<Launch>, b: seq<Launch>, x: seq<bool>, y: seq<bool>)
    requires Does(l, a, x) && Does(r, b, y)
    ensures Does(Listed(l, r), a + b, x + y)
  {
    assert (a + b)[..|a|] == a && (a + b)[|a|..] == b && (x + y)[..|x|] == x && (x + y)[|x|..] == y;
    assert DoesBoth(l, r, a + b, x + y, |a|, |x|);
  }

  // What the shell has started for x when a fork() or pipe() fails: the beginning of what it
  // would have started.
  ghost predicate Began(x: Task, plan: seq<Launch>, asked: seq<bool>) {
    exists rest, more :: Continues(x, plan, asked, rest, more)
  }

  ghost predicate Continues(x: Task, plan: seq<Launch>, asked: seq<bool>, rest: seq<Launch>, more: seq<bool>) {
    Does(x, plan + rest, asked + more)
  }

  ghost predicate Answers(x: Task, plan: seq<Launch>, asked: seq<bool>, alive: bool) {
    if alive then Does(x, plan, asked) else Began(x, plan, asked)
  }

  lemma Assoc<T>(a: seq<T>, b: seq<T>, c: seq<T>)
    ensures (a + b) + c == a + (b + c)
  {
  }

  lemma BeganLeft(l: Task, r: Task, a: seq<Launch>, y: seq<bool>)
    requires Began(l, a, y)
    ensures Began(Listed(l, r), a, y)
  {
    var rest, more :| Continues(l, a, y, rest, more);
    var b, z := SomePlan(r);
    Both(l, r, a + rest, b, y + more, z);
    Assoc(a, rest, b);
    Assoc(y, more, z);
    assert Continues(Listed(l, r), a, y, rest + b, more + z);
  }

  lemma BeganRight(l: Task, r: Task, a: seq<Launch>, b: seq<Launch>, y: seq<bool>, z: seq<bool>)
    requires Does(l, a, y) && Began(r, b, z)
    ensures Began(Listed(l, r), a + b, y + z)
  {
    var rest, more :| Continues(r, b, z, rest, more);
    Both(l, r, a, b + rest, y, z + more);
    Assoc(a, b, rest);
    Assoc(y, z, more);
    assert Continues(Listed(l, r), a + b, y + z, rest, more);
  }

  lemma BeganOpened(u: Task, plan: seq<Launch>, asked: seq<bool>)
    requires asked != [] && asked[0] && Began(u, plan, asked[1..])
    ensures Began(Redirected(u), plan, asked)
  {
    var rest, more :| Continues(u, plan, asked[1..], rest, more);
    assert (asked + more)[1..] == asked[1..] + more;
    assert Continues(Redirected(u), plan, asked, rest, more);
  }

  lemma BeganNone(x: Task)
    requires x.Piped? || (x.Simple? && Forks(x.words))
    ensures Began(x, [], [])
  {
    var rest := if x.Piped? then [Two(x.left.Simple? && x.left.back)] else [One(x.back)];
    assert [] + rest == rest && Continues(x, [], [], rest, []);
  }

  lemma BeganBack(u: Task, plan: seq<Launch>, asked: seq<bool>)
    requires Began(SetBack(u), plan, asked)
    ensures Began(Backed(u), plan, asked)
  {
    var rest, more :| Continues(SetBack(u), plan, asked, rest, more);
    assert Continues(Backed(u), plan, asked, rest, more);
  }

  lemma {:induction false} SomePlan(x: Task) returns (plan: seq<Launch>, asked: seq<bool>)
    ensures Does(x, plan, asked)
    decreases Size(x)
  {
    plan, asked := [], [];
    match x
    case Simple(ws, back) => plan := if Forks(ws) then [One(back)] else [];
    case Redirected(u) => asked := [false];
    case Piped(l, r) => plan := [Two(l.Simple? && l.back)];
    case Listed(l, r) =>
      var a, y := SomePlan(l);
      var b, z := SomePlan(r);
      Both(l, r, a, b, y, z);
      plan, asked := a + b, y + z;
    case Backed(u) => plan, asked := SomePlan(SetBack(u));
  }

  lemma {:induction false} SomeForeground(x: Task) returns (plan: seq<Launch>, asked: seq<bool>)
    requires !PlainLeft(x)
    ensures Does(x, plan, asked) && !AllBack(plan)
    decreases Size(x)
  {
    match x
    case Redirected(u) =>
      plan, asked := SomeForeground(u);
      assert ([true] + asked)[1..] == asked;
      asked := [true] + asked;
    case Piped(l, r) =>
      plan, asked := [Two(false)], [];
      assert !plan[0].back;
    case Listed(l, r) =>
      var a, b, y, z;
      if PlainLeft(l) {
        a, y := SomePlan(l);
        b, z := SomeForeground(r);
        var k :| 0 <= k < |b| && !b[k].back;
        assert !(a + b)[|a| + k].back;
      } else {
        a, y := SomeForeground(l);
        b, z := SomePlan(r);
        var k :| 0 <= k < |a| && !a[k].back;
        assert !(a + b)[k].back;
      }
      Both(l, r, a, b, y, z);
      plan, asked := a + b, y + z;
    case Backed(u) =>
      SetBackMarks(u);
      plan, asked := SomeForeground(SetBack(u));
  }

  // A command with & is in the background as a whole exactly when its pipelines have plain
  // simple commands on their left: the test looks at the left side only if that is EXEC.
  lemma BackgroundExactly(u: Task)
    ensures (forall plan, asked :: Does(Backed(u), plan, asked) ==> AllBack(plan)) <==> PlainLeft(u)
  {
    SetBackMarks(u);
    if PlainLeft(u) {
      forall plan, asked | Does(Backed(u), plan, asked) ensures AllBack(plan) {
        MarkedRuns(SetBack(u), plan, asked);
      }
    } else {
      var plan, asked := SomeForeground(SetBack(u));
      assert Does(Backed(u), plan, asked);
    }
  }

  // One such command: a < f | b & is waited for.
  lemma RedirectedLeftWaits(a: seq<string>, b: seq<string>, plan: seq<Launch>)
    ensures Does(Backed(Piped(Redirected(Simple(a, false)), Simple(b, false))), plan, []) <==> plan == [Two(false)]
  {
    var left := Redirected(Simple(a, false));
    assert SetBack(Piped(left, Simple(b, false))) == Piped(SetBack(left), Simple(b, true)) && SetBack(left).Redirected?;
  }

  // Without & nothing is in the background.
  predicate NoAmp(t: Tree) {
    match t
    case TExec(_) => true
    case TRedir(u, _, _) => NoAmp(u)
    case TPipe(l, r) => NoAmp(l) && NoAmp(r)
    case TList(l, r) => NoAmp(l) && NoAmp(r)
    case TBack(_) => false
  }

  lemma {:induction false} ForegroundOnly(t: Tree, plan: seq<Launch>, asked: seq<bool>)
    requires NoAmp(t) && Does(TaskOf(t), plan, asked)
    ensures Backs(plan) == 0
    decreases t
  {
    match t
    case TExec(_) =>
    case TRedir(u, _, _) =>
      if asked[0] {
        ForegroundOnly(u, plan, asked[1..]);
      }
    case TPipe(l, _) =>
      assert TaskOf(l).Simple? ==> !TaskOf(l).back;
      assert plan == [Two(false)] && plan[..0] == [];
    case TList(l, r) =>
      var k, j :| DoesBoth(TaskOf(l), TaskOf(r), plan, asked, k, j);
      ForegroundOnly(l, plan[..k], asked[..j]);
      ForegroundOnly(r, plan[k..], asked[j..]);
      BacksConcat(plan[..k], plan[k..]);
      assert plan == plan[..k] + plan[k..];
  }

  // --------------------------------------------------------------- the shell

  class Shell {
    const jobs: array<int>
    var children: set<int>      // children that have not been reaped, as the kernel knows them
    var zombies: set<int>       // those of them that have exited
    var out: seq<Report>
    ghost var recorded: set<int>
    ghost var forked: seq<int>  // what fork() has returned
    ghost var asked: seq<bool>  // what open() has, for redirections
    ghost var denied: nat       // how often fork() or pipe() has failed
    var top: nat                // the last pid given out

    ghost predicate Valid()
      reads this, jobs
    {
      && jobs.Length == NPROC && DistinctJobs(jobs[..]) && Children(jobs[..], children)
      && |children| < NPROC && (forall pid :: pid in children ==> 0 < pid <= top) && zombies <= children
      && (forall pid :: pid in recorded ==> pid <= top) && (forall k :: 0 <= k < |forked| ==> forked[k] <= top)
      && History(jobs[..], children, out, recorded)
    }

    constructor ()
      ensures Valid() && children == {} && out == [] && recorded == {} && forked == [] && asked == [] && denied == 0
      ensures fresh(jobs)
    {
      jobs := new int[NPROC](_ => 0);
      children, zombies, out, recorded, forked, asked, denied, top := {}, {}, [], {}, [], [], 0, 0;
    }

    // fork(): the kernel gives out ever larger pids, and has room for NPROC processes,
    // this shell among them. -1 when there is no room, or no memory.
    method Fork() returns (pid: int)
      requires Valid()
      modifies this`children, this`top, this`forked, this`denied
      ensures Valid() && (pid == -1 || pid > 0) && denied == old(denied) + if pid == -1 then 1 else 0
      ensures pid == -1 ==> children == old(children) && top == old(top) && forked == old(forked)
      ensures pid != -1 ==> pid > old(top) && pid !in old(children) && pid !in recorded && top == pid
      ensures pid != -1 ==> children == old(children) + {pid} && forked == old(forked) + [pid]
    {
      pid := -1;
      var room: bool := *;
      if room && |children| + 1 < NPROC {
        var others: int := *;   // other processes fork, too
        pid := top + 1 + if others > 0 then others else 0;
        Forked(jobs[..], children, out, recorded, pid, top);
        children := children + {pid};
        forked := forked + [pid];
        top := pid;
      } else {
        denied := denied + 1;
      }
    }

    method Pipe() returns (ok: bool)
      requires Valid()
      modifies this`denied
      ensures Valid() && denied == old(denied) + if ok then 0 else 1
    {
      ok := *;
      denied := denied + if ok then 0 else 1;
    }

    // open() of the file of a redirection.
    method Open() returns (ok: bool)
      requires Valid()
      modifies this`asked
      ensures Valid() && asked == old(asked) + [ok]
    {
      ok := *;
      asked := asked + [ok];
    }

    // Some children may exit at any time.
    method SomeExit()
      requires Valid()
      modifies this`zombies
      ensures Valid() && old(zombies) <= zombies
    {
      var dead: set<int> := *;
      zombies := zombies + dead * children;
    }

    // A child that has exited leaves the process table.
    method Reap() returns (pid: int, status: int)
      requires children != {} && zombies <= children
      modifies this`children, this`zombies
      ensures pid in old(children) && children == old(children) - {pid} && zombies == old(zombies) - {pid}
      ensures old(zombies) != {} ==> pid in old(zombies)
    {
      SomeMember(children);
      SomeMember(zombies);
      if zombies == {} {
        pid :| pid in children;
      } else {
        pid :| pid in zombies;
      }
      status := *;
      children := children - {pid};
      zombies := zombies - {pid};
    }

    method Slot(pid: int) returns (i: nat)
      requires jobs.Length == NPROC
      ensures i <= NPROC && (i < NPROC ==> jobs[i] == pid) && forall k :: 0 <= k < i ==> jobs[k] != pid
    {
      i := 0;
      while i < NPROC && jobs[i] != pid
        invariant i <= NPROC && forall k :: 0 <= k < i ==> jobs[k] != pid
      {
        i := i + 1;
      }
    }

    // add_job(): there is always a free slot.
    method AddJob(pid: int)
      requires Valid() && pid in children && pid !in recorded
      modifies jobs, this`recorded
      ensures Valid() && recorded == old(recorded) + {pid} && pid in jobs[..]
      ensures forall x :: x in old(jobs[..]) && x != 0 ==> x in jobs[..]
    {
      ghost var t := jobs[..];
      FreeSlot(t, children);
      var i := Slot(0);
      Recorded(t, children, out, recorded, i, pid);
      assert pid !in t;
      jobs[i] := pid;
      recorded := recorded + {pid};
      assert jobs[..] == t[i := pid];
      forall x | x in t && x != 0 ensures x in jobs[..] {
        var k :| 0 <= k < |t| && t[k] == x;
        assert jobs[..][k] == x;
      }
    }

    // is_bg_job(), and if so remove_job() and the report.
    method Settle(pid: int, status: int, ghost before: set<int>)
      requires jobs.Length == NPROC && pid in before && pid > 0 && children == before - {pid}
      requires DistinctJobs(jobs[..]) && Children(jobs[..], before) && History(jobs[..], before, out, recorded)
      requires |before| < NPROC && (forall x :: x in before ==> 0 < x <= top) && zombies <= children
      requires (forall x :: x in recorded ==> x <= top) && (forall k :: 0 <= k < |forked| ==> forked[k] <= top)
      modifies jobs, this`out
      ensures Valid() && out == if pid in old(jobs[..]) then old(out) + [Exited(pid, status)] else old(out)
      ensures pid !in jobs[..] && forall x :: x in jobs[..] ==> x == 0 || x in old(jobs[..])
    {
      ghost var t := jobs[..];
      var i := Slot(pid);
      if i < NPROC {
        Announced(t, before, out, recorded, i, status);
        assert t[i] == pid;
        jobs[i] := 0;
        assert jobs[..] == t[i := 0];
        out := out + [Exited(pid, status)];
      } else {
        Reaped(t, before, out, recorded, pid);
        assert pid !in t;
      }
    }

    // reap_zombies(): as long as wait_noblock() finds a dead child.
    method ReapZombies()
      requires Valid()
      modifies this`children, this`zombies, this`out, jobs
      ensures Valid() && children <= old(children) && old(out) <= out
      ensures zombies == {} && Gone(old(zombies), children)
    {
      SomeExit();
      while zombies != {}
        invariant Valid() && children <= old(children) && old(out) <= out && Gone(old(zombies), children - zombies)
        decreases |children|
      {
        ghost var before := children;
        var pid, status := Reap();
        Settle(pid, status, before);
        SomeExit();
      }
    }

    // wait_for_foreground(): until the foreground process is reaped, or no child is left.
    method WaitForForeground(foreground: int)
      requires Valid() && foreground > 0 && foreground !in jobs[..]
      modifies this`children, this`zombies, this`out, jobs
      ensures Valid() && children <= old(children) && old(out) <= out && foreground !in children
    {
      while children != {}
        invariant Valid() && children <= old(children) && old(out) <= out && foreground !in jobs[..]
        decreases |children|
      {
        ghost var before := children;
        SomeExit();
        var pid, status := Reap();
        Settle(pid, status, before);
        if pid == foreground {
          break;
        }
      }
    }

    ghost function Now(): Moment
      reads this
    {
      Moment(forked, top, children, recorded, denied)
    }

    // Only recorded jobs are in the table.
    lemma NotListed(pid: int)
      requires Valid() && pid != 0 && pid !in recorded
      ensures pid !in jobs[..]
    {
    }

    // A simple command: recorded in the background, waited for in the foreground. A fork()
    // that fails ends the shell.
    method RunExec(back: bool) returns (alive: bool, pid: int)
      requires Valid()
      modifies this`children, this`zombies, this`top, this`forked, this`denied, this`recorded, this`out, jobs
      ensures Valid() && recorded == old(recorded) + (if alive && back then {pid} else {}) && old(out) <= out
      ensures forked == (if alive then old(forked) + [pid] else old(forked))
      ensures denied == old(denied) + if alive then 0 else 1
      ensures alive ==> pid > old(top) && pid !in old(recorded) && top == pid
      ensures alive && back ==> out == old(out) && pid in jobs[..] && children == old(children) + {pid}
      ensures alive && !back ==> pid !in children && children <= old(children)
      ensures !alive ==> children == old(children) && out == old(out) && top == old(top)
    {
      pid := Fork();
      if pid == -1 {
        return false, pid;
      }
      if back {
        AddJob(pid);
      } else {
        NotListed(pid);
        WaitForForeground(pid);
      }
      return true, pid;
    }

    // pipe() and the two fork()s of a pipeline.
    method ForkBoth() returns (alive: bool, left: int, right: int)
      requires Valid()
      modifies this`children, this`top, this`forked, this`denied
      ensures Valid() && old(top) <= top && denied == old(denied) + if alive then 0 else 1
      ensures alive ==> old(top) < left < right == top && left !in recorded && right !in recorded
      ensures alive ==> forked == old(forked) + [left, right] && children == old(children) + {left, right}
      ensures !alive ==> old(forked) <= forked
      ensures !alive ==> forall pid :: pid in children && pid <= old(top) ==> pid in old(children)
    {
      left, right := -1, -1;
      var piped := Pipe();
      if !piped {
        return false, left, right;
      }
      left := Fork();
      if left == -1 {
        return false, left, right;
      }
      right := Fork();
      return right != -1, left, right;
    }

    method WaitForBoth(left: int, right: int)
      requires Valid() && left > 0 && left !in recorded && right > 0 && right !in recorded
      modifies this`children, this`zombies, this`out, jobs
      ensures Valid() && children <= old(children) && old(out) <= out && left !in children && right !in children
    {
      NotListed(left);
      WaitForForeground(left);
      NotListed(right);
      WaitForForeground(right);
    }

    // A pipeline: only its left side is recorded.
    method RunPipe(back: bool) returns (alive: bool, left: int, right: int)
      requires Valid()
      modifies this`children, this`zombies, this`top, this`forked, this`denied, this`recorded, this`out, jobs
      ensures Valid() && recorded == old(recorded) + (if alive && back then {left} else {}) && old(out) <= out
      ensures alive ==> old(top) < left < right == top && left !in old(recorded) && right !in recorded
      ensures alive ==> forked == old(forked) + [left, right]
      ensures denied == old(denied) + if alive then 0 else 1
      ensures alive && back ==> out == old(out) && left in jobs[..] && children == old(children) + {left, right}
      ensures alive && !back ==> left !in children && right !in children && children <= old(children)
      ensures !alive ==> old(forked) <= forked && old(top) <= top && out == old(out)
      ensures !alive ==> forall pid :: pid in children && pid <= old(top) ==> pid in old(children)
    {
      alive, left, right := ForkBoth();
      if alive {
        if back {
          AddJob(left);
        } else {
          WaitForBoth(left, right);
        }
      }
    }

    // runcmd() in the shell process: forks what the command says, waits for what is in the
    // foreground, and each background launch adds one job.
    method RunCmd(x: Task) returns (alive: bool, ghost plan: seq<Launch>)
      requires Valid()
      modifies this, jobs
      ensures Valid() && old(out) <= out && Carries(plan, old(Now()), Now(), alive) && old(asked) <= asked
      ensures Answers(x, plan, asked[|old(asked)|..], alive)
      decreases Size(x), 1
    {
      NothingCarried(Now(), Now(), true);
      plan := [];
      match x
      case Simple(words, back) =>
        if words == [] || words[0] == "cd" || words[0] == "jobs" {
          return true, plan;
        }
        alive, plan := StartOne(back);
        BeganNone(x);
      case Redirected(u) =>
        var found := Open();
        ghost var was := asked;
        assert asked[|old(asked)|..] == [found];
        if !found {
          return true, plan;
        }
        alive, plan := RunCmd(u);
        assert asked[|old(asked)|..][1..] == asked[|was|..];
        if !alive {
          BeganOpened(u, plan, asked[|old(asked)|..]);
        }
      case Piped(l, r) =>
        alive, plan := StartTwo(l.Simple? && l.back);
        BeganNone(x);
      case Listed(l, r) =>
        alive, plan := RunList(l, r);
      case Backed(u) =>
        alive, plan := RunCmd(SetBack(u));
        if !alive {
          BeganBack(u, plan, asked[|old(asked)|..]);
        }
    }

    method StartOne(back: bool) returns (alive: bool, ghost plan: seq<Launch>)
      requires Valid()
      modifies this`children, this`zombies, this`top, this`forked, this`denied, this`recorded, this`out, jobs
      ensures Valid() && old(out) <= out && Carries(plan, old(Now()), Now(), alive)
      ensures plan == if alive then [One(back)] else []
    {
      var pid;
      alive, pid := RunExec(back);
      if alive {
        plan := [One(back)];
        LaunchCarried(One(back), [pid], old(Now()), Now());
      } else {
        plan := [];
        NothingCarried(old(Now()), Now(), alive);
      }
    }

    method StartTwo(back: bool) returns (alive: bool, ghost plan: seq<Launch>)
      requires Valid()
      modifies this`children, this`zombies, this`top, this`forked, this`denied, this`recorded, this`out, jobs
      ensures Valid() && old(out) <= out && Carries(plan, old(Now()), Now(), alive)
      ensures plan == if alive then [Two(back)] else []
    {
      var left, right;
      alive, left, right := RunPipe(back);
      if alive {
        plan := [Two(back)];
        LaunchCarried(Two(back), [left, right], old(Now()), Now());
      } else {
        plan := [];
        NothingCarried(old(Now()), Now(), alive);
      }
    }

    method RunList(l: Task, r: Task) returns (alive: bool, ghost plan: seq<Launch>)
      requires Valid()
      modifies this, jobs
      ensures Valid() && old(out) <= out && Carries(plan, old(Now()), Now(), alive) && old(asked) <= asked
      ensures Answers(Listed(l, r), plan, asked[|old(asked)|..], alive)
      decreases Size(l) + Size(r) + 1, 0
    {
      ghost var a, b;
      alive, a := RunCmd(l);
      plan := a;
      if alive {
        ghost var mid, was := Now(), asked;
        alive, b := RunCmd(r);
        plan := a + b;
        Joined(a, b, old(Now()), mid, Now(), alive);
        TwoParts(old(asked), was, asked);
        if alive {
          Both(l, r, a, b, was[|old(asked)|..], asked[|was|..]);
        } else {
          BeganRight(l, r, a, b, was[|old(asked)|..], asked[|was|..]);
        }
      } else {
        BeganLeft(l, r, a, asked[|old(asked)|..]);
      }
    }

    // One round of the loop of main(): what has exited is reaped, and the line is carried out
    // unless it ends the session.
    method RunLine(line: string) returns (ended: bool, alive: bool, ghost plan: seq<Launch>)
      requires Valid()
      modifies this, jobs
      ensures Valid() && old(out) <= out && Carries(plan, old(Now()), Now(), alive)
      ensures ended <==> line == [] || ParseCmd(line).Panic?
      ensures old(asked) <= asked && (ended ==> plan == [] && alive && asked == old(asked))
      ensures !ended ==> Follows(line, plan, asked[|old(asked)|..], alive)
      ensures Gone(old(zombies), children)
    {
      plan, alive := [], true;
      ReapZombies();
      NothingCarried(old(Now()), Now(), true);
      if line == [] {
        return true, true, plan;
      }
      var r := ParseCmd(line);
      if r.Panic? {
        return true, true, plan;
      }
      ghost var mid := Now();
      alive, plan := RunCmd(TaskOf(TreeOf(r.value, line)));
      Joined([], plan, old(Now()), mid, Now(), alive);
      assert [] + plan == plan;
      ended := false;
    }

    // The loop of main(): over any input, each job that a background launch recorded is in
    // the table and not reaped, or was reported once. Line by line the launches are what
    // the parsed line says, and what was forked is exactly these; an empty line ends the
    // session, and so does one that does not parse, or a fork() or pipe() that fails. What
    // had exited before is reaped.
    method Session(lines: seq<string>) returns (alive: bool, ghost plans: seq<seq<Launch>>, ghost answers: seq<seq<bool>>)
      requires Valid()
      modifies this, jobs
      ensures Valid() && old(out) <= out && Carries(Flat(plans), old(Now()), Now(), alive)
      ensures |plans| == |answers| <= |lines| && asked == old(asked) + Flat(answers)
      ensures AllFollow(lines, plans, answers, alive) && (!alive ==> plans != [])
      ensures alive ==> |plans| == |lines| || lines[|plans|] == [] || ParseCmd(lines[|plans|]).Panic?
      ensures lines != [] ==> Gone(old(zombies), children)
    {
      alive, plans, answers := true, [], [];
      NothingCarried(Now(), Now(), true);
      var n := 0;
      while n < |lines|
        invariant n <= |lines| && Valid() && old(out) <= out && |plans| == |answers| == n && alive
        invariant Carries(Flat(plans), old(Now()), Now(), true)
        invariant AllFollow(lines, plans, answers, true) && asked == old(asked) + Flat(answers)
        invariant if n == 0 then zombies == old(zombies) else Gone(old(zombies), children)
      {
        ghost var mid, was := Now(), asked;
        var ended;
        ghost var plan;
        ended, alive, plan := RunLine(lines[n]);
        GoneStays(old(zombies), mid, Now());
        Onward(plans, plan, old(Now()), mid, Now(), alive);
        if ended {
          return;
        }
        ghost var now := asked[|was|..];
        FlatMore(answers, now);
        JoinParts(old(asked), Flat(answers), now, asked);
        FollowMore(lines, plans, answers, plan, now, alive);
        plans, answers := plans + [plan], answers + [now];
        if !alive {
          return;
        }
        n := n + 1;
      }
    }
  }

  // What the shell started for a line.
  ghost predicate Follows(line: string, plan: seq<Launch>, asked: seq<bool>, alive: bool) {
    var r := ParseCmd(line);
    line != [] && r.Ok? && Answers(TaskOf(TreeOf(r.value, line)), plan, asked, alive)
  }

  // The same line by line; the shell may have ended in the last one.
  ghost predicate AllFollow(lines: seq<string>, plans: seq<seq<Launch>>, answers: seq<seq<bool>>, alive: bool) {
    && |plans| == |answers| <= |lines|
    && forall i {:trigger FollowsAt(lines, plans, answers, i, alive)} ::
         0 <= i < |plans| ==> FollowsAt(lines, plans, answers, i, alive)
  }

  ghost predicate FollowsAt(lines: seq<string>, plans: seq<seq<Launch>>, answers: seq<seq<bool>>, i: nat, alive: bool)
    requires i < |plans| == |answers| <= |lines|
  {
    Follows(lines[i], plans[i], answers[i], alive || i + 1 < |plans|)
  }

  lemma FollowMore(lines: seq<string>, plans: seq<seq<Launch>>, answers: seq<seq<bool>>, plan: seq<Launch>,
      asked: seq<bool>, alive: bool)
    requires |plans| == |answers| < |lines| && AllFollow(lines, plans, answers, true)
    requires Follows(lines[|plans|], plan, asked, alive)
    ensures AllFollow(lines, plans + [plan], answers + [asked], alive)
  {
    var p, a := plans + [plan], answers + [asked];
    forall i | 0 <= i < |p| ensures FollowsAt(lines, p, a, i, alive) {
      assert i < |plans| ==> FollowsAt(lines, plans, answers, i, true);
    }
  }

  lemma TwoParts(a: seq<bool>, b: seq<bool>, c: seq<bool>)
    requires a <= b <= c
    ensures c[|a|..] == b[|a|..] + c[|b|..]
  {
  }

  lemma JoinParts(a: seq<bool>, b: seq<bool>, now: seq<bool>, c: seq<bool>)
    requires a + b <= c && c[|a + b|..] == now
    ensures c == a + (b + now)
  {
  }

  ghost function Flat<T>(parts: seq<seq<T>>): seq<T> {
    if parts == [] then [] else Flat(parts[..|parts| - 1]) + parts[|parts| - 1]
  }

  lemma FlatMore<T>(parts: seq<seq<T>>, part: seq<T>)
    ensures Flat(parts + [part]) == Flat(parts) + part
  {
    assert (parts + [part])[..|parts|] == parts;
  }

  ghost predicate Gone(pids: set<int>, children: set<int>) {
    forall pid :: pid in pids ==> pid !in children
  }

  // What fork() has given out, its last pid, the children, the jobs, and how often fork() or
  // pipe() has failed, at some moment.
  datatype Moment = Moment(forked: seq<int>, top: int, children: set<int>, recorded: set<int>, denied: nat)

  // Since p, no process that was there then has become a child or a job.
  ghost predicate Older(p: Moment, q: Moment) {
    && p.top <= q.top && (forall pid :: pid in q.children && pid <= p.top ==> pid in p.children)
    && (forall pid :: pid in q.recorded && pid <= p.top ==> pid in p.recorded) && p.recorded <= q.recorded
    && (forall k :: 0 <= k < |p.forked| ==> p.forked[k] <= p.top)
  }

  // Between p and q the processes of the plan were forked, and if alive no others, and each
  // background launch has added one job.
  ghost predicate Carries(plan: seq<Launch>, p: Moment, q: Moment, alive: bool) {
    && Older(p, q) && |q.recorded| == |p.recorded| + Backs(plan) && q.denied == p.denied + (if alive then 0 else 1)
    && p.forked <= q.forked && Spawns(plan) <= |q.forked| - |p.forked|
    && (alive ==> |q.forked| == |p.forked| + Spawns(plan))
    && Ran(plan, q.forked[|p.forked|..|p.forked| + Spawns(plan)], q.children, q.recorded)
  }

  lemma NothingCarried(p: Moment, q: Moment, alive: bool)
    requires Older(p, q) && q.recorded == p.recorded && p.forked <= q.forked && (alive ==> q.forked == p.forked)
    requires q.denied == p.denied + if alive then 0 else 1
    ensures Carries([], p, q, alive)
  {
  }

  lemma LaunchCarried(l: Launch, pids: seq<int>, p: Moment, q: Moment)
    requires Older(p, q) && |pids| == (if l.One? then 1 else 2) && q.forked == p.forked + pids && q.denied == p.denied
    requires if l.back then q.recorded == p.recorded + {pids[0]} && pids[0] !in p.recorded else q.recorded == p.recorded
    requires if l.back then |pids| == 2 ==> pids[1] !in q.recorded
             else forall k :: 0 <= k < |pids| ==> pids[k] !in q.children && pids[k] !in q.recorded
    ensures Carries([l], p, q, true)
  {
    assert [l][..0] == [] && pids[..0] == [] && Ran([l], pids, q.children, q.recorded);
    assert q.forked[|p.forked|..|p.forked| + |pids|] == pids;
  }

  // One plan after another.
  lemma Joined(a: seq<Launch>, b: seq<Launch>, p: Moment, q: Moment, r: Moment, alive: bool)
    requires Carries(a, p, q, true) && Carries(b, q, r, alive)
    ensures Carries(a + b, p, r, alive)
  {
    var x, y := q.forked[|p.forked|..|p.forked| + Spawns(a)], r.forked[|q.forked|..|q.forked| + Spawns(b)];
    RanLater(a, x, q.children, q.recorded, r.children, r.recorded);
    RanConcat(a, x, b, y, r.children, r.recorded);
    RanAll(a, x, r.children, r.recorded);
    RanAll(b, y, r.children, r.recorded);
    RanAll(a + b, x + y, r.children, r.recorded);
    BacksConcat(a, b);
    assert r.forked[..|q.forked|] == q.forked;
    assert r.forked[|p.forked|..|p.forked| + Spawns(a + b)] == x + y;
  }

  lemma GoneStays(pids: set<int>, p: Moment, q: Moment)
    requires Older(p, q) && forall pid :: pid in pids ==> pid <= p.top
    ensures Gone(pids, p.children) ==> Gone(pids, q.children)
  {
  }

  // One more line.
  lemma Onward(plans: seq<seq<Launch>>, plan: seq<Launch>, p: Moment, q: Moment, r: Moment, alive: bool)
    requires Carries(Flat(plans), p, q, true) && Carries(plan, q, r, alive)
    ensures Carries(Flat(plans + [plan]), p, r, alive) && (plan == [] ==> Flat(plans + [plan]) == Flat(plans))
  {
    FlatMore(plans, plan);
    Joined(Flat(plans), plan, p, q, r, alive);
  }
}
