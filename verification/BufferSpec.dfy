// The buffer cache as a step system: processes ask for blocks, wait for the
// buffer's sleep-lock, read, change, log or write, and release, in any order
// of interleaving, while unused buffers are recycled.
module BufferSpec {
  import opened Common

  type Data = seq<bv8>
  type Key = (nat, nat)   // device, block number

  datatype Buf = Buf(
    dev: nat, blockno: nat, valid: bool, refcnt: nat, data: Data,
    holder: Option<nat>,  // who holds the sleep-lock
    dirty: bool)          // the holder changed data and has not published it
  {
    function Key(): Key { (dev, blockno) }
  }

  // One caller's use of a buffer, from bget() to brelse().
  datatype Stage =
    | Waiting    // bget() chose the buffer, its lock is not held yet
    | Locked     // lock held, bread() has not looked at valid yet
    | Loaded     // bread() returned
    | Leaving    // brelse() let go of the lock, the reference is still counted
  datatype Ref = Ref(buf: nat, key: Key, stage: Stage)

  datatype Cache = Cache(
    bufs: seq<Buf>,
    order: seq<nat>,       // the linked list, head.next first
    disk: map<Key, Data>,
    view: map<Key, Data>,  // the content last given to each block by log_write() or bwrite()
    refs: map<nat, Ref>,
    pinned: set<nat>,      // buffers of the open transaction
    unsaved: set<nat>)     // logged, not yet written home

  datatype Step =
    | Bget(t: nat, key: Key)
    | Acquire(t: nat)
    | Load(t: nat)
    | Modify(t: nat, data: Data)
    | LogWrite(t: nat)
    | Bwrite(t: nat)
    | Bunpin(t: nat)
    | Unlock(t: nat)
    | Brelse(t: nat)

  datatype Outcome = Next(s: Cache) | Panic | Disabled

  predicate InRange(bufs: seq<Buf>, order: seq<nat>) {
    forall j :: 0 <= j < |order| ==> order[j] < |bufs|
  }

  // First loop of bget(): the position, from the front, of the cached block.
  function Hit(bufs: seq<Buf>, order: seq<nat>, key: Key): (pos: int)
    requires InRange(bufs, order)
    ensures -1 <= pos < |order|
    ensures pos >= 0 ==> bufs[order[pos]].Key() == key
    ensures forall j :: 0 <= j < |order| && (pos < 0 || j < pos) ==> bufs[order[j]].Key() != key
  {
    if order == [] then -1
    else if bufs[order[0]].Key() == key then 0
    else
      var rest := Hit(bufs, order[1..], key);
      if rest < 0 then -1 else rest + 1
  }

  // Second loop: the position, from the back, of an unused buffer.
  function Victim(bufs: seq<Buf>, order: seq<nat>): (pos: int)
    requires InRange(bufs, order)
    ensures -1 <= pos < |order|
    ensures pos >= 0 ==> bufs[order[pos]].refcnt == 0
    ensures forall j :: 0 <= j < |order| && pos < j ==> bufs[order[j]].refcnt != 0
  {
    if order == [] then -1
    else if bufs[order[|order| - 1]].refcnt == 0 then |order| - 1
    else Victim(bufs, order[..|order| - 1])
  }

  function Position(order: seq<nat>, i: nat): (k: nat)
    requires i in order
    ensures k < |order| && order[k] == i
  {
    if order[0] == i then 0 else Position(order[1..], i) + 1
  }

  // Unlink i and put it right after the head.
  function MoveToFront(order: seq<nat>, i: nat): seq<nat>
    requires i in order
  {
    var k := Position(order, i);
    [i] + order[..k] + order[k + 1..]
  }

  function BgetStep(s: Cache, t: nat, key: Key): Outcome {
    if t in s.refs || key !in s.disk || !InRange(s.bufs, s.order) then Disabled
    else
      var hit := Hit(s.bufs, s.order, key);
      var victim := Victim(s.bufs, s.order);
      if hit >= 0 then
        var i := s.order[hit];
        Next(s.(bufs := s.bufs[i := s.bufs[i].(refcnt := s.bufs[i].refcnt + 1)],
                refs := s.refs[t := Ref(i, key, Waiting)]))
      else if victim >= 0 then
        var i := s.order[victim];
        Next(s.(bufs := s.bufs[i := s.bufs[i].(dev := key.0, blockno := key.1, valid := false, refcnt := 1)],
                refs := s.refs[t := Ref(i, key, Waiting)],
                unsaved := s.unsaved - {i}))
      else Panic
  }

  predicate InStage(s: Cache, t: nat, stage: Stage) {
    t in s.refs && s.refs[t].stage == stage && s.refs[t].buf < |s.bufs|
  }

  // acquiresleep(): succeeds once nobody holds the buffer's lock.
  function AcquireStep(s: Cache, t: nat): Outcome {
    if InStage(s, t, Waiting) && s.bufs[s.refs[t].buf].holder.None? then
      var i := s.refs[t].buf;
      Next(s.(bufs := s.bufs[i := s.bufs[i].(holder := Some(t))], refs := s.refs[t := s.refs[t].(stage := Locked)]))
    else Disabled
  }

  // The rest of bread().
  function LoadStep(s: Cache, t: nat): Outcome {
    if InStage(s, t, Locked) && s.refs[t].key in s.disk then
      var i := s.refs[t].buf;
      var b := if s.bufs[i].valid then s.bufs[i] else s.bufs[i].(data := s.disk[s.refs[t].key], valid := true);
      Next(s.(bufs := s.bufs[i := b], refs := s.refs[t := s.refs[t].(stage := Loaded)]))
    else Disabled
  }

  function ModifyStep(s: Cache, t: nat, data: Data): Outcome {
    if InStage(s, t, Loaded) then
      var i := s.refs[t].buf;
      Next(s.(bufs := s.bufs[i := s.bufs[i].(data := data, dirty := true)]))
    else Disabled
  }

  // log_write(): pin the buffer unless its block is in the transaction already.
  function LogWriteStep(s: Cache, t: nat): Outcome {
    if InStage(s, t, Loaded) then
      var Ref(i, key, _) := s.refs[t];
      var absorbed := exists j :: j in s.pinned && j < |s.bufs| && s.bufs[j].Key() == key;
      var b := s.bufs[i].(dirty := false, refcnt := s.bufs[i].refcnt + if absorbed then 0 else 1);
      Next(s.(bufs := s.bufs[i := b],
              view := s.view[key := s.bufs[i].data],
              pinned := if absorbed then s.pinned else s.pinned + {i},
              unsaved := s.unsaved + {i}))
    else Disabled
  }

  function BwriteStep(s: Cache, t: nat): Outcome {
    if InStage(s, t, Loaded) then
      var Ref(i, key, _) := s.refs[t];
      Next(s.(bufs := s.bufs[i := s.bufs[i].(dirty := false)],
              disk := s.disk[key := s.bufs[i].data],
              view := s.view[key := s.bufs[i].data],
              unsaved := s.unsaved - {i}))
    else Disabled
  }

  // bunpin() as install_trans() uses it: after the block was written home.
  function BunpinStep(s: Cache, t: nat): Outcome {
    if InStage(s, t, Loaded) && !s.bufs[s.refs[t].buf].dirty
       && s.refs[t].buf in s.pinned && s.refs[t].buf !in s.unsaved && s.bufs[s.refs[t].buf].refcnt > 0 then
      var i := s.refs[t].buf;
      Next(s.(bufs := s.bufs[i := s.bufs[i].(refcnt := s.bufs[i].refcnt - 1)], pinned := s.pinned - {i}))
    else Disabled
  }

  // The releasesleep() of brelse(); the caller has published what it changed. From here
  // on others may lock and change the buffer.
  function UnlockStep(s: Cache, t: nat): Outcome {
    if InStage(s, t, Loaded) && !s.bufs[s.refs[t].buf].dirty then
      var i := s.refs[t].buf;
      Next(s.(bufs := s.bufs[i := s.bufs[i].(holder := None)], refs := s.refs[t := s.refs[t].(stage := Leaving)]))
    else Disabled
  }

  // The rest of brelse(), under bcache.lock.
  function BrelseStep(s: Cache, t: nat): Outcome {
    if InStage(s, t, Leaving) && s.bufs[s.refs[t].buf].refcnt > 0 && s.refs[t].buf in s.order then
      var i := s.refs[t].buf;
      var n := s.bufs[i].refcnt - 1;
      var s1 := s.(bufs := s.bufs[i := s.bufs[i].(refcnt := n)], refs := s.refs - {t});
      if n == 0 then Next(s1.(order := MoveToFront(s.order, i))) else Next(s1)
    else Disabled
  }

  function Step1(s: Cache, step: Step): Outcome {
    match step
    case Bget(t, key) => BgetStep(s, t, key)
    case Acquire(t) => AcquireStep(s, t)
    case Load(t) => LoadStep(s, t)
    case Modify(t, data) => ModifyStep(s, t, data)
    case LogWrite(t) => LogWriteStep(s, t)
    case Bwrite(t) => BwriteStep(s, t)
    case Bunpin(t) => BunpinStep(s, t)
    case Unlock(t) => UnlockStep(s, t)
    case Brelse(t) => BrelseStep(s, t)
  }

  // After binit(): every buffer is zero, so all have device 0, block 0.
  predicate Init(s: Cache) {
    && |s.bufs| == |s.order|
    && InRange(s.bufs, s.order) && Distinct(s.order)
    && (forall i :: 0 <= i < |s.bufs| ==> i in s.order)
    && (forall i :: 0 <= i < |s.bufs| ==> s.bufs[i] == Buf(0, 0, false, 0, s.bufs[i].data, None, false))
    && s.view == s.disk && s.refs == map[] && s.pinned == {} && s.unsaved == {}
  }

  predicate Run(s: Cache, steps: seq<Step>, s': Cache)
    decreases |steps|
  {
    if steps == [] then s' == s
    else
      var mid := Step1(s, steps[0]);
      mid.Next? && Run(mid.s, steps[1..], s')
  }

  // The step is the last brelse() of buffer i: nobody has it any more.
  predicate GivesUp(s: Cache, step: Step, i: nat) {
    step.Brelse? && InStage(s, step.t, Leaving) && s.refs[step.t].buf == i && s.bufs[i].refcnt == 1
  }

  // For each buffer the number of the step, counted from n, in which it was last given up,
  // if one of the steps gives it up, and its old stamp otherwise.
  ghost function LastGivenUp(s: Cache, steps: seq<Step>, s': Cache, n: nat, stamp: seq<nat>): (r: seq<nat>)
    requires Run(s, steps, s')
    ensures |r| == |stamp|
    decreases |steps|
  {
    if steps == [] then stamp
    else LastGivenUp(Step1(s, steps[0]).s, steps[1..], s', n + 1, Stamped(s, steps[0], n, stamp))
  }

  function Stamped(s: Cache, step: Step, n: nat, stamp: seq<nat>): (r: seq<nat>)
    ensures |r| == |stamp|
    ensures forall i :: 0 <= i < |r| ==> r[i] == if GivesUp(s, step, i) then n + 1 else stamp[i]
  {
    if step.Brelse? && step.t in s.refs && s.refs[step.t].buf < |stamp| && GivesUp(s, step, s.refs[step.t].buf)
    then stamp[s.refs[step.t].buf := n + 1] else stamp
  }

  // The list runs from the highest to the lowest stamp.
  ghost predicate RecentFirst(order: seq<nat>, stamp: seq<nat>) {
    && (forall a :: 0 <= a < |order| ==> order[a] < |stamp|)
    && forall a, b :: 0 <= a < b < |order| ==> stamp[order[a]] >= stamp[order[b]]
  }

  // ------------------------------------------------------------ invariants

  predicate Distinct(order: seq<nat>) {
    forall i, j :: 0 <= i < j < |order| ==> order[i] != order[j]
  }

  ghost predicate ListOk(s: Cache) {
    && |s.bufs| == |s.order|
    && InRange(s.bufs, s.order) && Distinct(s.order)
    && (forall i :: 0 <= i < |s.bufs| ==> i in s.order)
  }

  ghost function Users(refs: map<nat, Ref>, i: nat): set<nat> {
    set t | t in refs && refs[t].buf == i
  }

  // Every reference and every pin is counted, and nothing else is.
  ghost predicate Counted(s: Cache) {
    forall i :: 0 <= i < |s.bufs| ==>
      s.bufs[i].refcnt == |Users(s.refs, i)| + (if i in s.pinned then 1 else 0)
  }

  // A caller's buffer stays its buffer, and only the lock holder uses it.
  ghost predicate RefsOk(s: Cache) {
    forall t :: t in s.refs ==>
      && s.refs[t].buf < |s.bufs|
      && s.bufs[s.refs[t].buf].Key() == s.refs[t].key
      && s.refs[t].key in s.disk
      && (s.refs[t].stage == Locked || s.refs[t].stage == Loaded ==> s.bufs[s.refs[t].buf].holder == Some(t))
      && (s.refs[t].stage == Locked ==> !s.bufs[s.refs[t].buf].dirty)
      && (s.refs[t].stage == Loaded ==> s.bufs[s.refs[t].buf].valid)
  }

  ghost predicate PinsOk(s: Cache) {
    && (forall i :: i in s.pinned ==> i < |s.bufs|)
    && (forall i :: i in s.unsaved && i < |s.bufs| && s.bufs[i].dev != 0 ==> i in s.pinned && s.bufs[i].valid)
    && (forall i :: 0 <= i < |s.bufs| && s.bufs[i].holder == None ==> !s.bufs[i].dirty)
  }

  // Each block of a nonzero device is in at most one buffer.
  ghost predicate Unique(s: Cache) {
    forall i, j :: 0 <= i < |s.bufs| && 0 <= j < |s.bufs| && s.bufs[i].dev != 0 && s.bufs[i].Key() == s.bufs[j].Key() ==>
      i == j
  }

  // Cached contents are the published ones, except under a caller's hands.
  ghost predicate CacheFresh(s: Cache) {
    forall i :: 0 <= i < |s.bufs| && s.bufs[i].dev != 0 && s.bufs[i].valid && !s.bufs[i].dirty ==>
      s.bufs[i].Key() in s.view && s.bufs[i].data == s.view[s.bufs[i].Key()]
  }

  ghost predicate Behind(s: Cache, k: Key) {
    exists i :: i in s.unsaved && i < |s.bufs| && s.bufs[i].Key() == k
  }

  // The disk is behind only for blocks of the open transaction.
  ghost predicate DiskFresh(s: Cache) {
    && s.view.Keys == s.disk.Keys
    && forall k :: k in s.disk && k.0 != 0 && !Behind(s, k) ==> s.disk[k] == s.view[k]
  }

  ghost predicate Structure(s: Cache) {
    ListOk(s) && RefsOk(s) && Counted(s) && PinsOk(s)
  }

  ghost predicate Coherent(s: Cache) {
    Unique(s) && CacheFresh(s) && DiskFresh(s)
  }

  ghost predicate Inv(s: Cache) {
    Structure(s) && Coherent(s)
  }
}
