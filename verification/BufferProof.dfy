// Every step of the buffer cache keeps its invariant, and what follows for
// the callers of bread().
module BufferProof {
  import opened BufferSpec

  // -------------------------------------------------- counting references

  lemma UsersSet(refs: map<nat, Ref>, t: nat, ref: Ref, i: nat)
    requires t !in refs
    ensures |Users(refs[t := ref], i)| == |Users(refs, i)| + if ref.buf == i then 1 else 0
  {
    if ref.buf == i {
      assert Users(refs[t := ref], i) == Users(refs, i) + {t};
    } else {
      assert Users(refs[t := ref], i) == Users(refs, i);
    }
  }

  lemma UsersSame(refs: map<nat, Ref>, t: nat, ref: Ref, i: nat)
    requires t in refs && ref.buf == refs[t].buf
    ensures Users(refs[t := ref], i) == Users(refs, i)
  {
  }

  lemma UsersDrop(refs: map<nat, Ref>, t: nat, i: nat)
    requires t in refs
    ensures |Users(refs - {t}, i)| == |Users(refs, i)| - if refs[t].buf == i then 1 else 0
  {
    if refs[t].buf == i {
      assert Users(refs - {t}, i) == Users(refs, i) - {t};
    } else {
      assert Users(refs - {t}, i) == Users(refs, i);
    }
  }

  // A buffer with refcnt 0 belongs to nobody and to no transaction.
  lemma UnusedIsFree(s: Cache, i: nat)
    requires Counted(s) && i < |s.bufs| && s.bufs[i].refcnt == 0
    ensures i !in s.pinned
    ensures forall t :: t in s.refs ==> s.refs[t].buf != i
  {
    assert Users(s.refs, i) == {};
    assert forall t :: t in s.refs && s.refs[t].buf == i ==> t in Users(s.refs, i);
  }

  lemma CountedAdd(s: Cache, t: nat, ref: Ref, bufs: seq<Buf>)
    requires Counted(s) && t !in s.refs && ref.buf < |s.bufs| && |bufs| == |s.bufs|
    requires forall j :: 0 <= j < |bufs| ==> bufs[j].refcnt == s.bufs[j].refcnt + if j == ref.buf then 1 else 0
    ensures Counted(s.(bufs := bufs, refs := s.refs[t := ref]))
  {
    forall j | 0 <= j < |bufs| ensures bufs[j].refcnt == |Users(s.refs[t := ref], j)| + (if j in s.pinned then 1 else 0) {
      UsersSet(s.refs, t, ref, j);
    }
  }

  lemma CountedStage(s: Cache, t: nat, ref: Ref, bufs: seq<Buf>)
    requires Counted(s) && t in s.refs && ref.buf == s.refs[t].buf && |bufs| == |s.bufs|
    requires forall j :: 0 <= j < |bufs| ==> bufs[j].refcnt == s.bufs[j].refcnt
    ensures Counted(s.(bufs := bufs, refs := s.refs[t := ref]))
  {
    forall j | 0 <= j < |bufs| ensures bufs[j].refcnt == |Users(s.refs[t := ref], j)| + (if j in s.pinned then 1 else 0) {
      UsersSame(s.refs, t, ref, j);
    }
  }

  lemma CountedDrop(s: Cache, t: nat, bufs: seq<Buf>)
    requires Counted(s) && t in s.refs && |bufs| == |s.bufs|
    requires forall j :: 0 <= j < |bufs| ==> bufs[j].refcnt == s.bufs[j].refcnt - if j == s.refs[t].buf then 1 else 0
    ensures Counted(s.(bufs := bufs, refs := s.refs - {t}))
  {
    forall j | 0 <= j < |bufs| ensures bufs[j].refcnt == |Users(s.refs - {t}, j)| + (if j in s.pinned then 1 else 0) {
      UsersDrop(s.refs, t, j);
    }
  }

  // ------------------------------------------------------------- the list

  lemma FrontKeeps(order: seq<nat>, i: nat)
    requires Distinct(order) && i in order
    ensures var w := MoveToFront(order, i);
            |w| == |order| && Distinct(w) && forall x :: x in order ==> x in w
  {
    var k := Position(order, i);
    var w := MoveToFront(order, i);
    assert forall a :: 0 <= a < |w| ==> w[a] == order[if a == 0 then k else if a <= k then a - 1 else a];
    forall x | x in order ensures x in w {
      var j :| 0 <= j < |order| && order[j] == x;
      assert w[if j < k then j + 1 else if j == k then 0 else j] == x;
    }
  }

  lemma FrontRecent(order: seq<nat>, i: nat, stamp: seq<nat>, now: nat)
    requires Distinct(order) && i in order && RecentFirst(order, stamp)
    requires forall j :: 0 <= j < |stamp| ==> stamp[j] <= now
    ensures RecentFirst(MoveToFront(order, i), stamp[i := now + 1])
  {
    var k := Position(order, i);
    var w := MoveToFront(order, i);
    assert forall a :: 0 < a < |w| ==> w[a] == order[if a <= k then a - 1 else a] && w[a] != i;
  }

  lemma MissKey(s: Cache, key: Key)
    requires ListOk(s) && Hit(s.bufs, s.order, key) < 0
    ensures forall j :: 0 <= j < |s.bufs| ==> s.bufs[j].Key() != key
  {
    forall j | 0 <= j < |s.bufs| ensures s.bufs[j].Key() != key {
      assert j in s.order;
      var a :| 0 <= a < |s.order| && s.order[a] == j;
    }
  }

  // ---------------------------------------------------------------- steps

  // Steps that touch neither contents nor keys stay coherent.
  lemma CoherentFrame(s: Cache, s': Cache)
    requires Coherent(s) && |s'.bufs| == |s.bufs| && s'.unsaved == s.unsaved
    requires s'.view == s.view && s'.disk == s.disk
    requires forall i :: 0 <= i < |s.bufs| ==>
      && s'.bufs[i].Key() == s.bufs[i].Key() && s'.bufs[i].valid == s.bufs[i].valid
      && s'.bufs[i].data == s.bufs[i].data && s'.bufs[i].dirty == s.bufs[i].dirty
    ensures Coherent(s')
  {
    SameBehind(s, s');
  }

  lemma SameBehind(s: Cache, s': Cache)
    requires |s.bufs| == |s'.bufs| && s.unsaved == s'.unsaved
    requires forall i :: 0 <= i < |s.bufs| ==> s.bufs[i].Key() == s'.bufs[i].Key()
    ensures forall k :: Behind(s', k) == Behind(s, k)
  {
  }

  lemma BgetHit(s: Cache, t: nat, key: Key)
    requires Inv(s) && BgetStep(s, t, key).Next? && Hit(s.bufs, s.order, key) >= 0
    ensures Inv(BgetStep(s, t, key).s)
  {
    BgetHitStructure(s, t, key);
    BgetHitCoherent(s, t, key);
  }

  lemma BgetHitStructure(s: Cache, t: nat, key: Key)
    requires Structure(s) && BgetStep(s, t, key).Next? && Hit(s.bufs, s.order, key) >= 0
    ensures Structure(BgetStep(s, t, key).s)
  {
    var s' := BgetStep(s, t, key).s;
    CountedAdd(s, t, s'.refs[t], s'.bufs);
  }

  lemma BgetHitCoherent(s: Cache, t: nat, key: Key)
    requires Coherent(s) && InRange(s.bufs, s.order) && BgetStep(s, t, key).Next? && Hit(s.bufs, s.order, key) >= 0
    ensures Coherent(BgetStep(s, t, key).s)
  {
    CoherentFrame(s, BgetStep(s, t, key).s);
  }

  lemma BgetMissStructure(s: Cache, t: nat, key: Key)
    requires Structure(s) && BgetStep(s, t, key).Next? && Hit(s.bufs, s.order, key) < 0
    ensures Structure(BgetStep(s, t, key).s)
  {
    var s' := BgetStep(s, t, key).s;
    CountedAdd(s, t, s'.refs[t], s'.bufs);
    BgetMissRefs(s, t, key);
  }

  lemma BgetMissRefs(s: Cache, t: nat, key: Key)
    requires Structure(s) && BgetStep(s, t, key).Next? && Hit(s.bufs, s.order, key) < 0
    ensures RefsOk(BgetStep(s, t, key).s) && PinsOk(BgetStep(s, t, key).s)
  {
    UnusedIsFree(s, BgetStep(s, t, key).s.refs[t].buf);
  }

  // Recycling: the block that leaves the cache was on disk already, and no
  // other buffer holds the block that comes in.
  lemma BgetMissCoherent(s: Cache, t: nat, key: Key)
    requires Inv(s) && BgetStep(s, t, key).Next? && Hit(s.bufs, s.order, key) < 0
    ensures Coherent(BgetStep(s, t, key).s)
  {
    var s' := BgetStep(s, t, key).s;
    UnusedIsFree(s, s'.refs[t].buf);
    MissKey(s, key);
    forall k: Key | k.0 != 0 && Behind(s, k) ensures Behind(s', k) {
      var j :| j in s.unsaved && j < |s.bufs| && s.bufs[j].Key() == k;
      assert s'.bufs[j] == s.bufs[j];
    }
  }

  lemma BgetInv(s: Cache, t: nat, key: Key)
    requires Inv(s) && BgetStep(s, t, key).Next?
    ensures Inv(BgetStep(s, t, key).s)
  {
    if Hit(s.bufs, s.order, key) >= 0 {
      BgetHit(s, t, key);
    } else {
      BgetMissStructure(s, t, key);
      BgetMissCoherent(s, t, key);
    }
  }

  lemma AcquireInv(s: Cache, t: nat)
    requires Inv(s) && AcquireStep(s, t).Next?
    ensures Inv(AcquireStep(s, t).s)
  {
    AcquireStructure(s, t);
    AcquireCoherent(s, t);
  }

  lemma AcquireStructure(s: Cache, t: nat)
    requires Structure(s) && AcquireStep(s, t).Next?
    ensures Structure(AcquireStep(s, t).s)
  {
    var s' := AcquireStep(s, t).s;
    CountedStage(s, t, s'.refs[t], s'.bufs);
  }

  lemma AcquireCoherent(s: Cache, t: nat)
    requires Coherent(s) && AcquireStep(s, t).Next?
    ensures Coherent(AcquireStep(s, t).s)
  {
    CoherentFrame(s, AcquireStep(s, t).s);
  }

  lemma LoadStructure(s: Cache, t: nat)
    requires Structure(s) && LoadStep(s, t).Next?
    ensures Structure(LoadStep(s, t).s)
  {
    var s' := LoadStep(s, t).s;
    CountedStage(s, t, s'.refs[t], s'.bufs);
  }

  // Reading from disk is right because only cached blocks can be newer.
  lemma LoadCoherent(s: Cache, t: nat)
    requires Inv(s) && LoadStep(s, t).Next?
    ensures Coherent(LoadStep(s, t).s)
  {
    SameBehind(s, LoadStep(s, t).s);
  }

  lemma ModifyInv(s: Cache, t: nat, data: Data)
    requires Inv(s) && ModifyStep(s, t, data).Next?
    ensures Inv(ModifyStep(s, t, data).s)
  {
    SameBehind(s, ModifyStep(s, t, data).s);
  }

  lemma LogWriteStructure(s: Cache, t: nat)
    requires Inv(s) && LogWriteStep(s, t).Next?
    ensures Structure(LogWriteStep(s, t).s)
  {
    LogWriteList(s, t);
    LogWritePins(s, t);
  }

  lemma LogWriteList(s: Cache, t: nat)
    requires Structure(s) && LogWriteStep(s, t).Next?
    ensures ListOk(LogWriteStep(s, t).s) && RefsOk(LogWriteStep(s, t).s)
  {
  }

  lemma LogWritePins(s: Cache, t: nat)
    requires Inv(s) && LogWriteStep(s, t).Next?
    ensures Counted(LogWriteStep(s, t).s) && PinsOk(LogWriteStep(s, t).s)
  {
    var Ref(i, key, _) := s.refs[t];
    assert i in s.pinned ==> i < |s.bufs| && s.bufs[i].Key() == key;
  }

  lemma LogWriteCoherent(s: Cache, t: nat)
    requires Inv(s) && LogWriteStep(s, t).Next?
    ensures Coherent(LogWriteStep(s, t).s)
  {
    var s' := LogWriteStep(s, t).s;
    var i := s.refs[t].buf;
    forall k | Behind(s, k) || k == s.refs[t].key ensures Behind(s', k) {
      if k == s.refs[t].key {
        assert i in s'.unsaved && s'.bufs[i].Key() == k;
      } else {
        var j :| j in s.unsaved && j < |s.bufs| && s.bufs[j].Key() == k;
        assert s'.bufs[j].Key() == k;
      }
    }
  }

  lemma BwriteStructure(s: Cache, t: nat)
    requires Structure(s) && BwriteStep(s, t).Next?
    ensures Structure(BwriteStep(s, t).s)
  {
    var s' := BwriteStep(s, t).s;
    assert forall i :: 0 <= i < |s.bufs| ==> s'.bufs[i].refcnt == s.bufs[i].refcnt;
  }

  lemma BwriteCoherent(s: Cache, t: nat)
    requires Inv(s) && BwriteStep(s, t).Next?
    ensures Coherent(BwriteStep(s, t).s)
  {
    var s' := BwriteStep(s, t).s;
    forall k | Behind(s, k) && k != s.refs[t].key ensures Behind(s', k) {
      var j :| j in s.unsaved && j < |s.bufs| && s.bufs[j].Key() == k;
      assert j in s'.unsaved && s'.bufs[j].Key() == k;
    }
  }

  lemma BunpinInv(s: Cache, t: nat)
    requires Inv(s) && BunpinStep(s, t).Next?
    ensures Inv(BunpinStep(s, t).s)
  {
    CoherentFrame(s, BunpinStep(s, t).s);
  }

  lemma UnlockInv(s: Cache, t: nat)
    requires Inv(s) && UnlockStep(s, t).Next?
    ensures Inv(UnlockStep(s, t).s)
  {
    UnlockStructure(s, t);
    CoherentFrame(s, UnlockStep(s, t).s);
  }

  lemma UnlockStructure(s: Cache, t: nat)
    requires Structure(s) && UnlockStep(s, t).Next?
    ensures Structure(UnlockStep(s, t).s)
  {
    var s' := UnlockStep(s, t).s;
    CountedStage(s, t, s'.refs[t], s'.bufs);
  }

  lemma BrelseStructure(s: Cache, t: nat)
    requires Structure(s) && BrelseStep(s, t).Next?
    ensures Structure(BrelseStep(s, t).s)
  {
    CountedDrop(s, t, BrelseStep(s, t).s.bufs);
    BrelseList(s, t);
    BrelseRefs(s, t);
  }

  lemma BrelseCoherent(s: Cache, t: nat)
    requires Coherent(s) && BrelseStep(s, t).Next?
    ensures Coherent(BrelseStep(s, t).s)
  {
    CoherentFrame(s, BrelseStep(s, t).s);
  }

  lemma BrelseRefs(s: Cache, t: nat)
    requires RefsOk(s) && PinsOk(s) && BrelseStep(s, t).Next?
    ensures RefsOk(BrelseStep(s, t).s) && PinsOk(BrelseStep(s, t).s)
  {
  }

  lemma BrelseList(s: Cache, t: nat)
    requires ListOk(s) && BrelseStep(s, t).Next?
    ensures ListOk(BrelseStep(s, t).s)
  {
    FrontKeeps(s.order, s.refs[t].buf);
  }

  lemma InvStep(s: Cache, step: Step)
    requires Inv(s) && Step1(s, step).Next?
    ensures Inv(Step1(s, step).s)
  {
    match step
    case Bget(t, key) => BgetInv(s, t, key);
    case Acquire(t) => AcquireInv(s, t);
    case Load(t) => LoadStructure(s, t); LoadCoherent(s, t);
    case Modify(t, data) => ModifyInv(s, t, data);
    case LogWrite(t) => LogWriteStructure(s, t); LogWriteCoherent(s, t);
    case Bwrite(t) => BwriteStructure(s, t); BwriteCoherent(s, t);
    case Bunpin(t) => BunpinInv(s, t);
    case Unlock(t) => UnlockInv(s, t);
    case Brelse(t) => BrelseStructure(s, t); BrelseCoherent(s, t);
  }

  lemma {:induction false} InvRun(s: Cache, steps: seq<Step>, s': Cache)
    requires Inv(s) && Run(s, steps, s')
    ensures Inv(s')
    decreases |steps|
  {
    if steps != [] {
      InvStep(s, steps[0]);
      InvRun(Step1(s, steps[0]).s, steps[1..], s');
    }
  }

  lemma InitInv(s: Cache)
    requires Init(s)
    ensures Inv(s)
  {
    assert forall i :: Users(s.refs, i) == {};
  }

  // --------------------------------------------------------- main theorems

  // bread() of a block on a nonzero device returns the content last given to
  // that block, over every run of recycling, pinning and commits.
  lemma BreadReturnsLatest(s0: Cache, steps: seq<Step>, s: Cache, t: nat)
    requires Init(s0) && Run(s0, steps, s)
    requires LoadStep(s, t).Next? && s.refs[t].key.0 != 0
    ensures var s' := LoadStep(s, t).s;
            && s.refs[t].key in s.view
            && s'.bufs[s.refs[t].buf].Key() == s.refs[t].key
            && s'.bufs[s.refs[t].buf].data == s.view[s.refs[t].key]
  {
    InitInv(s0);
    InvRun(s0, steps, s);
    LoadStructure(s, t);
    LoadCoherent(s, t);
  }

  // At most one buffer per block of a nonzero device, in every state.
  lemma OneBufferPerBlock(s0: Cache, steps: seq<Step>, s: Cache, i: nat, j: nat)
    requires Init(s0) && Run(s0, steps, s)
    requires i < |s.bufs| && j < |s.bufs| && s.bufs[i].dev != 0 && s.bufs[i].Key() == s.bufs[j].Key()
    ensures i == j
  {
    InitInv(s0);
    InvRun(s0, steps, s);
  }

  // The list stays in the order in which the buffers were given up.
  lemma RecentStep(s: Cache, step: Step, n: nat, stamp: seq<nat>)
    requires ListOk(s) && Step1(s, step).Next? && RecentFirst(s.order, stamp) && |stamp| == |s.bufs|
    requires forall j :: 0 <= j < |stamp| ==> stamp[j] <= n
    ensures RecentFirst(Step1(s, step).s.order, Stamped(s, step, n, stamp)) && |Step1(s, step).s.bufs| == |s.bufs|
  {
    if step.Brelse? {
      FrontRecent(s.order, s.refs[step.t].buf, stamp, n);
    }
  }

  lemma {:induction false} RecentRun(s: Cache, steps: seq<Step>, s': Cache, n: nat, stamp: seq<nat>)
    requires Inv(s) && Run(s, steps, s') && RecentFirst(s.order, stamp) && |stamp| == |s.bufs|
    requires forall j :: 0 <= j < |stamp| ==> stamp[j] <= n
    ensures RecentFirst(s'.order, LastGivenUp(s, steps, s', n, stamp)) && |s'.bufs| == |s.bufs|
    decreases |steps|
  {
    if steps != [] {
      InvStep(s, steps[0]);
      RecentStep(s, steps[0], n, stamp);
      RecentRun(Step1(s, steps[0]).s, steps[1..], s', n + 1, Stamped(s, steps[0], n, stamp));
    }
  }

  // bget() never recycles a buffer of the open transaction or one somebody
  // uses, and what it recycles is the least recently given up unused buffer.
  lemma RecyclesLeastRecent(s0: Cache, steps: seq<Step>, s: Cache, t: nat, key: Key)
    requires Init(s0) && Run(s0, steps, s)
    requires BgetStep(s, t, key).Next? && Hit(s.bufs, s.order, key) < 0
    ensures var i := BgetStep(s, t, key).s.refs[t].buf;
            var last := LastGivenUp(s0, steps, s, 0, seq(|s0.bufs|, _ => 0));
            && i < |s.bufs| == |last| && i !in s.pinned
            && (forall u :: u in s.refs ==> s.refs[u].buf != i)
            && (forall j :: 0 <= j < |s.bufs| && s.bufs[j].refcnt == 0 ==> last[i] <= last[j])
  {
    InitInv(s0);
    InvRun(s0, steps, s);
    var last := LastGivenUp(s0, steps, s, 0, seq(|s0.bufs|, _ => 0));
    RecentRun(s0, steps, s, 0, seq(|s0.bufs|, _ => 0));
    var i := BgetStep(s, t, key).s.refs[t].buf;
    UnusedIsFree(s, i);
    forall j | 0 <= j < |s.bufs| && s.bufs[j].refcnt == 0 ensures last[i] <= last[j] {
      assert j in s.order;
      var a :| 0 <= a < |s.order| && s.order[a] == j;
    }
  }

  // bget() panics exactly when the block is not cached and every buffer is in
  // use or pinned.
  lemma NoBuffers(s0: Cache, steps: seq<Step>, s: Cache, t: nat, key: Key)
    requires Init(s0) && Run(s0, steps, s)
    requires t !in s.refs && key in s.disk
    ensures BgetStep(s, t, key).Panic? <==>
      forall i :: 0 <= i < |s.bufs| ==> s.bufs[i].Key() != key && (i in s.pinned || Users(s.refs, i) != {})
  {
    InitInv(s0);
    InvRun(s0, steps, s);
    if BgetStep(s, t, key).Panic? {
      MissKey(s, key);
      forall i | 0 <= i < |s.bufs| ensures s.bufs[i].refcnt > 0 {
        assert i in s.order;
        var a :| 0 <= a < |s.order| && s.order[a] == i;
      }
    } else {
      var hit, victim := Hit(s.bufs, s.order, key), Victim(s.bufs, s.order);
      if hit < 0 {
        UnusedIsFree(s, s.order[victim]);
        assert Users(s.refs, s.order[victim]) == {};
      }
    }
  }

  // The panic is reachable: as many callers as there are buffers, each asking for another
  // block, leave none for the next.
  lemma BuffersRunOut(s0: Cache, keys: seq<Key>) returns (steps: seq<Step>, s: Cache)
    requires Init(s0) && |keys| == |s0.bufs| + 1
    requires (forall i :: 0 <= i < |keys| ==> keys[i] in s0.disk && keys[i] != (0, 0))
    requires forall i, j :: 0 <= i < j < |keys| ==> keys[i] != keys[j]
    ensures |steps| == |s0.bufs| && Run(s0, steps, s) && BgetStep(s, |s0.bufs|, keys[|s0.bufs|]).Panic?
  {
    steps, s := FillFrom(s0, keys, 0);
  }

  // The last k buffers of the list belong to the first k callers; the others are as after binit().
  ghost predicate Filled(s: Cache, keys: seq<Key>, k: nat) {
    && k <= |s.bufs| == |s.order| && |keys| == |s.bufs| + 1 && InRange(s.bufs, s.order) && Distinct(s.order)
    && (forall i :: 0 <= i < |keys| ==> keys[i] in s.disk && keys[i] != (0, 0))
    && (forall i, j :: 0 <= i < j < |keys| ==> keys[i] != keys[j])
    && (forall j {:trigger s.order[j]} :: 0 <= j < |s.order| ==> FilledAt(s.bufs[s.order[j]], keys, k, |s.order| - 1 - j))
    && (forall t :: t in s.refs ==> t < k)
  }

  predicate FilledAt(b: Buf, keys: seq<Key>, k: nat, t: nat)
    requires t < |keys|
  {
    if t < k then b.refcnt == 1 && b.Key() == keys[t] else b.refcnt == 0 && b.Key() == (0, 0)
  }

  lemma {:induction false} FillFrom(s: Cache, keys: seq<Key>, k: nat) returns (steps: seq<Step>, s': Cache)
    requires Filled(s, keys, k)
    ensures |steps| == |s.bufs| - k && Run(s, steps, s') && BgetStep(s', |s.bufs|, keys[|s.bufs|]).Panic?
    decreases |s.bufs| - k
  {
    if k == |s.bufs| {
      steps, s' := [], s;
      assert Victim(s.bufs, s.order) < 0;
    } else {
      FillOne(s, keys, k);
      var rest;
      rest, s' := FillFrom(BgetStep(s, k, keys[k]).s, keys, k + 1);
      steps := [Bget(k, keys[k])] + rest;
      assert steps[1..] == rest;
    }
  }

  lemma FillOne(s: Cache, keys: seq<Key>, k: nat)
    requires Filled(s, keys, k) && k < |s.bufs|
    ensures BgetStep(s, k, keys[k]).Next? && |BgetStep(s, k, keys[k]).s.bufs| == |s.bufs|
    ensures Filled(BgetStep(s, k, keys[k]).s, keys, k + 1)
  {
    var last := |s.order| - 1 - k;
    var s' := BgetStep(s, k, keys[k]).s;
    TakesLast(s, keys, k);
    forall j | 0 <= j < |s'.order| ensures FilledAt(s'.bufs[s'.order[j]], keys, k + 1, |s'.order| - 1 - j) {
      assert FilledAt(s.bufs[s.order[j]], keys, k, |s.order| - 1 - j);
      assert j != last ==> s.order[j] != s.order[last];
    }
  }

  lemma TakesLast(s: Cache, keys: seq<Key>, k: nat)
    requires Filled(s, keys, k) && k < |s.bufs|
    ensures var i := s.order[|s.order| - 1 - k];
            var b := s.bufs[i].(dev := keys[k].0, blockno := keys[k].1, valid := false, refcnt := 1);
            && i < |s.bufs| && BgetStep(s, k, keys[k]).Next?
            && BgetStep(s, k, keys[k]).s.bufs == s.bufs[i := b] && BgetStep(s, k, keys[k]).s.order == s.order
            && BgetStep(s, k, keys[k]).s.refs == s.refs[k := Ref(i, keys[k], Waiting)]
            && BgetStep(s, k, keys[k]).s.disk == s.disk
  {
    var last := |s.order| - 1 - k;
    assert FilledAt(s.bufs[s.order[last]], keys, k, k);
    assert Hit(s.bufs, s.order, keys[k]) < 0 && Victim(s.bufs, s.order) == last;
  }

  // With no transaction open the disk holds exactly what was given to it.
  lemma QuietDiskIsCurrent(s0: Cache, steps: seq<Step>, s: Cache, k: Key)
    requires Init(s0) && Run(s0, steps, s)
    requires s.pinned == {} && k in s.disk && k.0 != 0
    ensures k in s.view && s.disk[k] == s.view[k]
  {
    InitInv(s0);
    InvRun(s0, steps, s);
  }

  // ------------------------------------------- what a caller wrote, step by step

  // Buffer i, if it has unpublished changes, is in the hands of a caller of bread().
  ghost predicate DirtyHeld(s: Cache, i: nat) {
    i < |s.bufs| && s.bufs[i].dirty ==>
      && s.bufs[i].holder.Some? && s.bufs[i].holder.value in s.refs
      && s.refs[s.bufs[i].holder.value].buf == i && s.refs[s.bufs[i].holder.value].stage == Loaded
  }

  ghost predicate AllHeld(s: Cache) {
    forall i {:trigger DirtyHeld(s, i)} :: DirtyHeld(s, i)
  }

  // Who held a dirty buffer still does, or the buffer is no longer dirty.
  lemma HeldSame(s: Cache, s': Cache, i: nat)
    requires DirtyHeld(s, i) && |s'.bufs| == |s.bufs|
    requires i < |s.bufs| && s'.bufs[i].dirty ==> s.bufs[i].dirty && s'.bufs[i].holder == s.bufs[i].holder
    requires i < |s.bufs| && s.bufs[i].dirty && s.bufs[i].holder.Some? ==>
      var u := s.bufs[i].holder.value; u in s.refs && s.refs[u].stage == Loaded ==> u in s'.refs && s'.refs[u] == s.refs[u]
    ensures DirtyHeld(s', i)
  {
  }

  lemma HeldBget(s: Cache, t: nat, key: Key, i: nat)
    requires Inv(s) && AllHeld(s) && BgetStep(s, t, key).Next?
    ensures DirtyHeld(BgetStep(s, t, key).s, i)
  {
    var s' := BgetStep(s, t, key).s;
    var j := s'.refs[t].buf;
    assert DirtyHeld(s, i);
    if s.bufs[j].refcnt == 0 {
      UnusedClean(s, j);
    }
    HeldSame(s, s', i);
  }

  lemma HeldAcquire(s: Cache, t: nat, i: nat)
    requires AllHeld(s) && AcquireStep(s, t).Next?
    ensures DirtyHeld(AcquireStep(s, t).s, i)
  {
    assert DirtyHeld(s, i) && DirtyHeld(s, s.refs[t].buf);
    HeldSame(s, AcquireStep(s, t).s, i);
  }

  // The steps of a caller that holds the lock.
  lemma HeldUse(s: Cache, step: Step, i: nat)
    requires RefsOk(s) && AllHeld(s) && Step1(s, step).Next?
    requires step.Load? || step.Modify? || step.LogWrite? || step.Bwrite? || step.Bunpin?
    ensures DirtyHeld(Step1(s, step).s, i)
  {
    assert DirtyHeld(s, i);
    if !step.Modify? || i != s.refs[step.t].buf {
      HeldSame(s, Step1(s, step).s, i);
    }
  }

  lemma HeldLeave(s: Cache, step: Step, i: nat)
    requires AllHeld(s) && Step1(s, step).Next? && (step.Unlock? || step.Brelse?)
    ensures DirtyHeld(Step1(s, step).s, i)
  {
    assert DirtyHeld(s, i);
    HeldSame(s, Step1(s, step).s, i);
  }

  lemma HeldStep(s: Cache, step: Step, i: nat)
    requires Inv(s) && AllHeld(s) && Step1(s, step).Next?
    ensures DirtyHeld(Step1(s, step).s, i)
  {
    match step
    case Bget(t, key) => HeldBget(s, t, key, i);
    case Acquire(t) => HeldAcquire(s, t, i);
    case Unlock(_) => HeldLeave(s, step, i);
    case Brelse(_) => HeldLeave(s, step, i);
    case _ => HeldUse(s, step, i);
  }

  lemma UnusedClean(s: Cache, i: nat)
    requires Counted(s) && AllHeld(s) && i < |s.bufs| && s.bufs[i].refcnt == 0
    ensures !s.bufs[i].dirty
  {
    assert DirtyHeld(s, i);
    UnusedIsFree(s, i);
  }

  // A valid buffer of block k has that content.
  predicate Agrees(b: Buf, k: Key, data: Data) {
    b.Key() == k && b.valid ==> b.data == data
  }

  predicate IsNew(b: Buf, k: Key) {
    b.Key() == k && b.valid && b.dirty
  }

  ghost predicate Unpublished(s: Cache, k: Key) {
    exists i :: 0 <= i < |s.bufs| && IsNew(s.bufs[i], k)
  }

  // The content of block k is data: in the buffer, if there is a valid one, and, unless
  // somebody has yet to publish it, among the published ones.
  ghost predicate Carries(s: Cache, k: Key, data: Data) {
    && (forall i :: 0 <= i < |s.bufs| ==> Agrees(s.bufs[i], k, data))
    && k in s.view && (s.view[k] == data || Unpublished(s, k))
  }

  // The step is a change of block k by its caller.
  predicate Changes(s: Cache, step: Step, k: Key) {
    step.Modify? && step.t in s.refs && s.refs[step.t].key == k
  }

  // Only buffer i changed, and not what is published for block k.
  lemma CarriesOne(s: Cache, s': Cache, i: nat, k: Key, data: Data)
    requires Carries(s, k, data) && i < |s.bufs| == |s'.bufs| && s'.bufs == s.bufs[i := s'.bufs[i]]
    requires k in s'.view && s'.view[k] == s.view[k] && Agrees(s'.bufs[i], k, data)
    requires IsNew(s.bufs[i], k) ==> IsNew(s'.bufs[i], k)
    ensures Carries(s', k, data)
  {
    if Unpublished(s, k) {
      var j :| 0 <= j < |s.bufs| && IsNew(s.bufs[j], k);
      assert IsNew(s'.bufs[j], k);
    }
  }

  lemma CarriesBget(s: Cache, t: nat, key: Key, k: Key, data: Data)
    requires Inv(s) && AllHeld(s) && Carries(s, k, data) && BgetStep(s, t, key).Next?
    ensures Carries(BgetStep(s, t, key).s, k, data)
  {
    var s' := BgetStep(s, t, key).s;
    var i := s'.refs[t].buf;
    assert Agrees(s.bufs[i], k, data);
    if s.bufs[i].refcnt == 0 {
      UnusedClean(s, i);
    }
    CarriesOne(s, s', i, k, data);
  }

  // bread() brings in what is published, or leaves the buffer alone.
  lemma CarriesLoad(s: Cache, t: nat, k: Key, data: Data)
    requires Inv(s) && k.0 != 0 && Carries(s, k, data) && LoadStep(s, t).Next?
    ensures Carries(LoadStep(s, t).s, k, data)
  {
    var s', i := LoadStep(s, t).s, s.refs[t].buf;
    LoadCoherent(s, t);
    assert Agrees(s.bufs[i], k, data);
    if !s.bufs[i].valid && s.bufs[i].Key() == k {
      forall j | 0 <= j < |s.bufs| ensures !IsNew(s.bufs[j], k) {
      }
    }
    CarriesOne(s, s', i, k, data);
  }

  lemma CarriesModify(s: Cache, t: nat, d: Data, k: Key, data: Data)
    requires RefsOk(s) && Carries(s, k, data) && ModifyStep(s, t, d).Next? && s.refs[t].key != k
    ensures Carries(ModifyStep(s, t, d).s, k, data)
  {
    assert s.bufs[s.refs[t].buf].Key() != k;
    CarriesOne(s, ModifyStep(s, t, d).s, s.refs[t].buf, k, data);
  }

  // log_write() and bwrite() publish what the buffer holds.
  lemma CarriesPublish(s: Cache, step: Step, k: Key, data: Data)
    requires RefsOk(s) && Carries(s, k, data) && Step1(s, step).Next? && (step.LogWrite? || step.Bwrite?)
    ensures Carries(Step1(s, step).s, k, data)
  {
    var s', i := Step1(s, step).s, s.refs[step.t].buf;
    assert Agrees(s.bufs[i], k, data) && s.bufs[i].Key() == s.refs[step.t].key && s.bufs[i].valid;
    if s.refs[step.t].key != k {
      CarriesOne(s, s', i, k, data);
    }
  }

  // Steps that change no content.
  lemma CarriesRest(s: Cache, step: Step, k: Key, data: Data)
    requires Carries(s, k, data) && Step1(s, step).Next?
    requires step.Acquire? || step.Bunpin? || step.Unlock? || step.Brelse?
    ensures Carries(Step1(s, step).s, k, data)
  {
    assert Agrees(s.bufs[s.refs[step.t].buf], k, data);
    CarriesOne(s, Step1(s, step).s, s.refs[step.t].buf, k, data);
  }

  lemma CarriesStep(s: Cache, step: Step, k: Key, data: Data)
    requires Inv(s) && AllHeld(s) && k.0 != 0 && Carries(s, k, data) && Step1(s, step).Next? && !Changes(s, step, k)
    ensures Carries(Step1(s, step).s, k, data)
  {
    match step
    case Bget(t, key) => CarriesBget(s, t, key, k, data);
    case Load(t) => CarriesLoad(s, t, k, data);
    case Modify(t, d) => CarriesModify(s, t, d, k, data);
    case LogWrite(_) => CarriesPublish(s, step, k, data);
    case Bwrite(_) => CarriesPublish(s, step, k, data);
    case _ => CarriesRest(s, step, k, data);
  }

  // Nobody changes block k on the way.
  ghost predicate Untouched(s: Cache, steps: seq<Step>, s': Cache, k: Key)
    requires Run(s, steps, s')
    decreases |steps|
  {
    steps != [] ==> !Changes(s, steps[0], k) && Untouched(Step1(s, steps[0]).s, steps[1..], s', k)
  }

  lemma {:induction false} HeldRun(s: Cache, steps: seq<Step>, s': Cache)
    requires Inv(s) && AllHeld(s) && Run(s, steps, s')
    ensures Inv(s') && AllHeld(s')
    decreases |steps|
  {
    if steps != [] {
      InvStep(s, steps[0]);
      forall i ensures DirtyHeld(Step1(s, steps[0]).s, i) {
        HeldStep(s, steps[0], i);
      }
      HeldRun(Step1(s, steps[0]).s, steps[1..], s');
    }
  }

  lemma {:induction false} CarriesRun(s: Cache, steps: seq<Step>, s': Cache, k: Key, data: Data)
    requires Inv(s) && AllHeld(s) && Run(s, steps, s') && k.0 != 0 && Untouched(s, steps, s', k) && Carries(s, k, data)
    ensures Inv(s') && AllHeld(s') && Carries(s', k, data)
    decreases |steps|
  {
    if steps != [] {
      HeldRun(s, steps[..1], Step1(s, steps[0]).s);
      CarriesStep(s, steps[0], k, data);
      CarriesRun(Step1(s, steps[0]).s, steps[1..], s', k, data);
    }
  }

  lemma CarriesLoaded(s: Cache, u: nat, k: Key, data: Data)
    requires Inv(s) && k.0 != 0 && Carries(s, k, data) && LoadStep(s, u).Next? && s.refs[u].key == k
    ensures LoadStep(s, u).s.bufs[s.refs[u].buf].Key() == k && LoadStep(s, u).s.bufs[s.refs[u].buf].data == data
  {
    CarriesLoad(s, u, k, data);
  }

  // What a caller puts into a buffer is what every later bread() of the block returns,
  // recycled or not, logged or written, until somebody changes the block again.
  lemma BreadReturnsWritten(s0: Cache, before: seq<Step>, s: Cache, t: nat, data: Data, after: seq<Step>, s': Cache,
      u: nat)
    requires Init(s0) && Run(s0, before, s) && ModifyStep(s, t, data).Next? && s.refs[t].key.0 != 0
    requires Run(ModifyStep(s, t, data).s, after, s')
    requires Untouched(ModifyStep(s, t, data).s, after, s', s.refs[t].key)
    requires LoadStep(s', u).Next? && s'.refs[u].key == s.refs[t].key
    ensures LoadStep(s', u).s.bufs[s'.refs[u].buf].data == data
  {
    WrittenCarried(s0, before, s, t, data, after, s');
    CarriesLoaded(s', u, s.refs[t].key, data);
  }

  lemma WrittenCarried(s0: Cache, before: seq<Step>, s: Cache, t: nat, data: Data, after: seq<Step>, s': Cache)
    requires Init(s0) && Run(s0, before, s) && ModifyStep(s, t, data).Next? && s.refs[t].key.0 != 0
    requires Run(ModifyStep(s, t, data).s, after, s')
    requires Untouched(ModifyStep(s, t, data).s, after, s', s.refs[t].key)
    ensures Inv(s') && AllHeld(s') && Carries(s', s.refs[t].key, data)
  {
    InitInv(s0);
    HeldRun(s0, before, s);
    ModifyCarries(s, t, data);
    CarriesRun(ModifyStep(s, t, data).s, after, s', s.refs[t].key, data);
  }

  lemma ModifyCarries(s: Cache, t: nat, data: Data)
    requires Inv(s) && AllHeld(s) && ModifyStep(s, t, data).Next? && s.refs[t].key.0 != 0
    ensures Inv(ModifyStep(s, t, data).s) && AllHeld(ModifyStep(s, t, data).s)
    ensures Carries(ModifyStep(s, t, data).s, s.refs[t].key, data)
  {
    var s', k, i := ModifyStep(s, t, data).s, s.refs[t].key, s.refs[t].buf;
    ModifyInv(s, t, data);
    forall j ensures DirtyHeld(s', j) {
      HeldUse(s, Modify(t, data), j);
    }
    assert IsNew(s'.bufs[i], k);
    forall j | 0 <= j < |s'.bufs| ensures Agrees(s'.bufs[j], k, data) {
      assert s'.bufs[j].Key() == k ==> j == i;
    }
  }

  // A block that nobody has changed since boot reads as the disk was.
  lemma BreadReturnsStored(s0: Cache, steps: seq<Step>, s: Cache, k: Key, u: nat)
    requires Init(s0) && Run(s0, steps, s) && k in s0.disk && k.0 != 0 && Untouched(s0, steps, s, k)
    requires LoadStep(s, u).Next? && s.refs[u].key == k
    ensures LoadStep(s, u).s.bufs[s.refs[u].buf].data == s0.disk[k]
  {
    InitInv(s0);
    CarriesRun(s0, steps, s, k, s0.disk[k]);
    CarriesLoaded(s, u, k, s0.disk[k]);
  }

  // With no transaction open and nobody at work on the block, what was written is on disk.
  lemma QuietDiskHasWritten(s0: Cache, before: seq<Step>, s: Cache, t: nat, data: Data, after: seq<Step>, s': Cache)
    requires Init(s0) && Run(s0, before, s) && ModifyStep(s, t, data).Next? && s.refs[t].key.0 != 0
    requires Run(ModifyStep(s, t, data).s, after, s')
    requires Untouched(ModifyStep(s, t, data).s, after, s', s.refs[t].key)
    requires s'.pinned == {} && forall u :: u in s'.refs && s'.refs[u].key == s.refs[t].key ==> s'.refs[u].stage != Loaded
    ensures s.refs[t].key in s'.disk && s'.disk[s.refs[t].key] == data
  {
    var k := s.refs[t].key;
    WrittenCarried(s0, before, s, t, data, after, s');
    forall j | 0 <= j < |s'.bufs| ensures !IsNew(s'.bufs[j], k) {
      assert DirtyHeld(s', j);
    }
  }

  // Caller t keeps its reference all the way.
  ghost predicate Keeps(s: Cache, steps: seq<Step>, s': Cache, t: nat)
    requires Run(s, steps, s')
    decreases |steps|
  {
    t in s.refs && (steps != [] ==> Keeps(Step1(s, steps[0]).s, steps[1..], s', t))
  }

  lemma RefStays(s: Cache, step: Step, t: nat)
    requires Step1(s, step).Next? && t in s.refs && t in Step1(s, step).s.refs
    ensures Step1(s, step).s.refs[t] == s.refs[t].(stage := Step1(s, step).s.refs[t].stage)
  {
  }

  lemma {:induction false} RefRun(s: Cache, steps: seq<Step>, s': Cache, t: nat)
    requires Run(s, steps, s') && Keeps(s, steps, s', t)
    ensures t in s'.refs && s'.refs[t].key == s.refs[t].key && s'.refs[t].buf == s.refs[t].buf
    decreases |steps|
  {
    if steps != [] {
      RefStays(s, steps[0], t);
      RefRun(Step1(s, steps[0]).s, steps[1..], s', t);
    }
  }

  // From bget(key) to its brelse() a caller has a buffer of that very block.
  lemma BgetGivesBlock(s0: Cache, before: seq<Step>, s: Cache, t: nat, key: Key, after: seq<Step>, s': Cache)
    requires Init(s0) && Run(s0, before, s) && BgetStep(s, t, key).Next?
    requires Run(BgetStep(s, t, key).s, after, s') && Keeps(BgetStep(s, t, key).s, after, s', t)
    ensures t in s'.refs && s'.refs[t].key == key
    ensures s'.refs[t].buf < |s'.bufs| && s'.bufs[s'.refs[t].buf].Key() == key
  {
    InitInv(s0);
    InvRun(s0, before, s);
    InvStep(s, Bget(t, key));
    InvRun(BgetStep(s, t, key).s, after, s');
    RefRun(BgetStep(s, t, key).s, after, s', t);
  }
}
