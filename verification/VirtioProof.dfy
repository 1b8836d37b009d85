// Every step of the virtio disk keeps its invariant: descriptors are free or
// in exactly one chain, rings are never overrun although their indices wrap,
// and each completion reaches the request it belongs to.
module VirtioProof {
  import opened Common
  import opened VirtioSpec

  // ------------------------------------------------- 16-bit ring positions

  lemma SlotOfWrapped(n: nat)
    ensures (n % WRAP) % NUM == n % NUM
  {
    var q, m := n / WRAP, n % WRAP;
    assert n == NUM * (8192 * q) + m;
  }

  lemma NextOfWrapped(n: nat)
    ensures (n % WRAP + 1) % WRAP == (n + 1) % WRAP
  {
    var q, m := n / WRAP, n % WRAP;
    assert n + 1 == WRAP * q + (m + 1);
  }

  lemma WrapIndex(n: nat)
    ensures (n % WRAP) % NUM == n % NUM
    ensures (n % WRAP + 1) % WRAP == (n + 1) % WRAP
  {
    SlotOfWrapped(n);
    NextOfWrapped(n);
  }

  lemma WrapEqual(a: nat, b: nat)
    requires b <= a <= b + NUM
    ensures a % WRAP == b % WRAP <==> a == b
  {
    if a % WRAP == b % WRAP {
      assert (a - b) % WRAP == 0;
    }
  }

  lemma SlotsDiffer(base: nat, i: nat, j: nat)
    requires i < j < NUM
    ensures (base + i) % NUM != (base + j) % NUM
  {
  }

  // ring holds the entries of q from position start on.
  ghost predicate Holds(ring: seq<nat>, start: nat, q: seq<nat>) {
    && |ring| == NUM && |q| <= NUM
    && forall k :: 0 <= k < |q| ==> ring[(start + k) % NUM] == q[k]
  }

  lemma RingPut(ring: seq<nat>, start: nat, q: seq<nat>, x: nat)
    requires Holds(ring, start, q) && |q| < NUM
    ensures Holds(ring[(start + |q|) % NUM := x], start, q + [x])
  {
    forall k | 0 <= k < |q| ensures ring[(start + |q|) % NUM := x][(start + k) % NUM] == q[k] {
      SlotsDiffer(start, k, |q|);
    }
  }

  lemma RingGet(ring: seq<nat>, start: nat, q: seq<nat>)
    requires Holds(ring, start, q) && q != []
    ensures ring[start % NUM] == q[0]
    ensures Holds(ring, start + 1, q[1..])
  {
    assert ring[(start + 0) % NUM] == q[0];
    forall k | 0 <= k < |q| - 1 ensures ring[(start + 1 + k) % NUM] == q[1..][k] {
      assert ring[(start + (k + 1)) % NUM] == q[k + 1];
    }
  }

  predicate Distinct(q: seq<nat>) {
    forall i, j :: 0 <= i < j < |q| ==> q[i] != q[j]
  }

  // Pigeonhole: distinct descriptor numbers fit in the ring.
  lemma {:induction false} DistinctFits(q: seq<nat>, n: nat)
    requires Distinct(q) && forall k :: 0 <= k < |q| ==> q[k] < n
    ensures |q| <= n
    decreases n
  {
    if q != [] {
      assert q[0] < n;
      if n - 1 in q {
        var i :| 0 <= i < |q| && q[i] == n - 1;
        var rest := q[..i] + q[i + 1..];
        assert forall k :: 0 <= k < |rest| ==> rest[k] == q[if k < i then k else k + 1];
        DistinctFits(rest, n - 1);
      } else {
        DistinctFits(q, n - 1);
      }
    }
  }

  // ------------------------------------------------------------ invariants

  ghost predicate Rings(drv: Driver, dev: Device, bk: Book) {
    && drv.availIdx == bk.puts % WRAP && dev.lastAvail == bk.takes % WRAP
    && bk.puts == bk.takes + |bk.queued|
    && Holds(drv.avail, bk.takes, bk.queued)
    && dev.idx == bk.posts % WRAP && drv.usedIdx == bk.seen % WRAP
    && bk.posts == bk.seen + |bk.finished|
    && Holds(dev.used, bk.seen, bk.finished)
  }

  // Where each request is: queued, taken, finished, or past all three.
  ghost predicate Places(reqs: map<nat, Req>, queued: seq<nat>, taken: set<nat>, finished: seq<nat>) {
    && Distinct(queued) && Distinct(finished)
    && (forall h :: h in queued ==> h in reqs && h !in taken && h !in finished)
    && (forall h :: h in taken ==> h in reqs && h !in finished)
    && (forall h :: h in finished ==> h in reqs)
  }

  ghost predicate ChainOk(d: Driver, h: nat, r: Req) {
    && Sized(d)
    && h < NUM && r.mid < NUM && r.last < NUM && h != r.mid && r.mid != r.last && h != r.last
    && d.desc[h] == Desc(Op(h), false, true, r.mid)
    && d.desc[r.mid] == Desc(DataOf(r.b), !r.out, true, r.last)
    && d.desc[r.last] == Desc(Status(h), true, false, 0)
    && d.info[h].b == Some(r.b)
    && d.ops[h].out == r.out
  }

  predicate Owns(owner: seq<int>, h: nat, r: Req) {
    && |owner| == NUM && h < NUM && r.mid < NUM && r.last < NUM
    && owner[h] == owner[r.mid] == owner[r.last] == h
  }

  predicate InChain(reqs: map<nat, Req>, h: int, i: nat) {
    h >= 0 && h in reqs && (i == h || i == reqs[h].mid || i == reqs[h].last)
  }

  // Every descriptor is free or in exactly one three-element chain.
  ghost predicate Chains(drv: Driver, reqs: map<nat, Req>, owner: seq<int>) {
    && Sized(drv) && |owner| == NUM
    && (forall h :: h in reqs ==> ChainOk(drv, h, reqs[h]) && Owns(owner, h, reqs[h]))
    && (forall i :: 0 <= i < NUM ==> (drv.free[i] <==> owner[i] == -1))
    && (forall i :: 0 <= i < NUM && owner[i] != -1 ==> InChain(reqs, owner[i], i))
  }

  // One request's buffer, sectors and sleeping caller.
  ghost predicate Linked(ops: seq<BlkReq>, bufs: seq<Buf>, procs: seq<Proc>, sectors: map<nat, nat>, h: nat, r: Req) {
    && h < |ops| && r.b < |bufs| && r.p < |procs|
    && bufs[r.b].user == Some(h) && procs[r.p] == Waiting(h)
    && ops[h].sector == Sector(bufs[r.b].blockno)
    && ops[h].sector in sectors && sectors[ops[h].sector] == h
  }

  // Requests, buffers, sectors and sleeping callers belong together one to one.
  ghost predicate Links(ops: seq<BlkReq>, bufs: seq<Buf>, procs: seq<Proc>, sectors: map<nat, nat>,
      reqs: map<nat, Req>) {
    && (forall h {:trigger Linked(ops, bufs, procs, sectors, h, reqs[h])} ::
          h in reqs ==> Linked(ops, bufs, procs, sectors, h, reqs[h]))
    && (forall p :: 0 <= p < |procs| && procs[p].Waiting? ==> procs[p].h in reqs && reqs[procs[p].h].p == p)
  }

  // b->disk is 1 until the interrupt for it was handled.
  ghost predicate Progress(info: seq<Info>, bufs: seq<Buf>, taken: set<nat>, bk: Book) {
    forall h {:trigger Progressed(info, bufs, taken, bk, h)} :: h in bk.reqs ==> Progressed(info, bufs, taken, bk, h)
  }

  ghost predicate Progressed(info: seq<Info>, bufs: seq<Buf>, taken: set<nat>, bk: Book, h: nat)
    requires h in bk.reqs
  {
    && h < |info| && bk.reqs[h].b < |bufs|
    && (bufs[bk.reqs[h].b].disk <==> h in bk.queued || h in taken || h in bk.finished)
    && (h in bk.finished ==> info[h].status == 0)
  }

  // Buffer and disk move towards the same content, from the side that has it.
  ghost predicate Content(bufs: seq<Buf>, platter: map<nat, Data>, r: Req, done: bool) {
    && r.b < |bufs| && Sector(bufs[r.b].blockno) in platter
    && (r.out || done ==> bufs[r.b].data == r.content)
    && (!r.out || done ==> platter[Sector(bufs[r.b].blockno)] == r.content)
  }

  ghost predicate Contents(bufs: seq<Buf>, dev: Device, bk: Book) {
    forall h :: h in bk.reqs ==>
      Content(bufs, dev.platter, bk.reqs[h], h !in bk.queued && h !in dev.taken)
  }

  // A caller asleep for descriptors sleeps because some chain is out.
  ghost predicate Sleepers(procs: seq<Proc>, reqs: map<nat, Req>) {
    forall p :: 0 <= p < |procs| && procs[p] == Asleep ==> reqs != map[]
  }

  ghost predicate Inv(s: System) {
    && Rings(s.drv, s.dev, s.book)
    && Places(s.book.reqs, s.book.queued, s.dev.taken, s.book.finished)
    && Chains(s.drv, s.book.reqs, s.book.owner)
    && Links(s.drv.ops, s.bufs, s.procs, s.book.sectors, s.book.reqs)
    && Progress(s.drv.info, s.bufs, s.dev.taken, s.book)
    && Contents(s.bufs, s.dev, s.book)
    && Sleepers(s.procs, s.book.reqs)
  }

  // ---------------------------------------------------------------- Submit

  lemma AllFreeAllocates(free: seq<bool>)
    requires |free| == NUM && forall i :: 0 <= i < NUM ==> free[i]
    ensures Alloc3(free).Some?
  {
    var x := FirstFree(free);
    assert free[0];
    var f1 := free[x := false];
    assert f1[if x == 0 then 1 else 0];
    var y := FirstFree(f1);
    var f2 := f1[y := false];
    assert f2[0] || f2[1] || f2[2];
  }

  // Without three free descriptors some chain is out.
  lemma NoneFree(drv: Driver, reqs: map<nat, Req>, owner: seq<int>)
    requires Chains(drv, reqs, owner) && Alloc3(drv.free).None?
    ensures reqs != map[]
  {
    if forall i :: 0 <= i < NUM ==> drv.free[i] {
      AllFreeAllocates(drv.free);
    } else {
      var i :| 0 <= i < NUM && !drv.free[i];
      assert InChain(reqs, owner[i], i);
    }
  }

  predicate Usable(free: seq<bool>, x: nat, y: nat, z: nat) {
    && |free| == NUM && x < NUM && y < NUM && z < NUM && x != y && y != z && x != z
    && free[x] && free[y] && free[z]
  }

  ghost predicate MaySubmit(s: System, p: nat, b: nat) {
    && p < |s.procs| && b < |s.bufs| && Sized(s.drv) && |s.book.owner| == NUM
    && s.procs[p].Idle? && s.bufs[b].user == None
    && Sector(s.bufs[b].blockno) in s.dev.platter && Sector(s.bufs[b].blockno) !in s.book.sectors
  }

  lemma EnqueueOldChain(d: Driver, b: nat, blockno: nat, out: bool, x: nat, y: nat, z: nat, owner: seq<int>, h: nat,
      r: Req)
    requires Sized(d) && Usable(d.free, x, y, z) && |owner| == NUM
    requires forall i :: 0 <= i < NUM ==> (d.free[i] <==> owner[i] == -1)
    requires ChainOk(d, h, r) && Owns(owner, h, r)
    ensures h != x && ChainOk(Enqueue(d, b, blockno, out, x, y, z), h, r)
    ensures Owns(owner[x := x][y := x][z := x], h, r)
  {
    assert !d.free[h] && !d.free[r.mid] && !d.free[r.last];
  }

  lemma EnqueueOwner(free: seq<bool>, reqs: map<nat, Req>, owner: seq<int>, x: nat, r: Req, i: nat)
    requires Usable(free, x, r.mid, r.last) && |owner| == NUM && i < NUM && x !in reqs
    requires free[i] <==> owner[i] == -1
    requires owner[i] != -1 ==> InChain(reqs, owner[i], i)
    ensures var free', owner' := free[x := false][r.mid := false][r.last := false], owner[x := x][r.mid := x][r.last := x];
            (free'[i] <==> owner'[i] == -1) && (owner'[i] != -1 ==> InChain(reqs[x := r], owner'[i], i))
  {
  }

  lemma EnqueueChains(d: Driver, b: nat, blockno: nat, out: bool, x: nat, y: nat, z: nat, reqs: map<nat, Req>,
      owner: seq<int>, r: Req)
    requires Chains(d, reqs, owner) && Usable(d.free, x, y, z)
    requires r.b == b && r.out == out && r.mid == y && r.last == z
    ensures x !in reqs
    ensures Chains(Enqueue(d, b, blockno, out, x, y, z), reqs[x := r], owner[x := x][y := x][z := x])
  {
    var d', reqs', owner' := Enqueue(d, b, blockno, out, x, y, z), reqs[x := r], owner[x := x][y := x][z := x];
    forall h | h in reqs
      ensures h != x && ChainOk(d', h, reqs[h]) && Owns(owner', h, reqs[h])
    {
      EnqueueOldChain(d, b, blockno, out, x, y, z, owner, h, reqs[h]);
    }
    assert ChainOk(d', x, r) && Owns(owner', x, r);
    forall i | 0 <= i < NUM
      ensures d'.free[i] <==> owner'[i] == -1
      ensures owner'[i] != -1 ==> InChain(reqs', owner'[i], i)
    {
      EnqueueOwner(d.free, reqs, owner, x, r, i);
    }
  }

  lemma SubmitRings(s: System, p: nat, b: nat, out: bool, x: nat, y: nat, z: nat)
    requires MaySubmit(s, p, b) && Usable(s.drv.free, x, y, z) && x !in s.book.reqs
    requires Rings(s.drv, s.dev, s.book) && Places(s.book.reqs, s.book.queued, s.dev.taken, s.book.finished)
    requires forall h :: h in s.book.reqs ==> h < NUM
    ensures var s' := Submitted(s, p, b, out, x, y, z);
            && Rings(s'.drv, s'.dev, s'.book)
            && Places(s'.book.reqs, s'.book.queued, s'.dev.taken, s'.book.finished)
  {
    var q := s.book.queued;
    assert forall k :: 0 <= k < |q| ==> q[k] in q;
    DistinctFits(q + [x], NUM);
    WrapIndex(s.book.puts);
    RingPut(s.drv.avail, s.book.takes, q, x);
  }

  lemma SubmitLinks(s: System, p: nat, b: nat, out: bool, x: nat, y: nat, z: nat)
    requires MaySubmit(s, p, b) && Usable(s.drv.free, x, y, z) && x !in s.book.reqs
    requires Links(s.drv.ops, s.bufs, s.procs, s.book.sectors, s.book.reqs)
    ensures var s' := Submitted(s, p, b, out, x, y, z);
            Links(s'.drv.ops, s'.bufs, s'.procs, s'.book.sectors, s'.book.reqs)
  {
    var s' := Submitted(s, p, b, out, x, y, z);
    forall h | h in s.book.reqs
      ensures Linked(s'.drv.ops, s'.bufs, s'.procs, s'.book.sectors, h, s.book.reqs[h])
    {
      assert Linked(s.drv.ops, s.bufs, s.procs, s.book.sectors, h, s.book.reqs[h]);
    }
  }

  lemma SubmitOtherBuffer(s: System, p: nat, b: nat, h: nat)
    requires MaySubmit(s, p, b) && h in s.book.reqs
    requires Links(s.drv.ops, s.bufs, s.procs, s.book.sectors, s.book.reqs)
    ensures s.book.reqs[h].b != b
  {
    assert Linked(s.drv.ops, s.bufs, s.procs, s.book.sectors, h, s.book.reqs[h]);
  }

  lemma SubmitProgress(s: System, p: nat, b: nat, out: bool, x: nat, y: nat, z: nat)
    requires MaySubmit(s, p, b) && Usable(s.drv.free, x, y, z) && x !in s.book.reqs
    requires Links(s.drv.ops, s.bufs, s.procs, s.book.sectors, s.book.reqs)
    requires Places(s.book.reqs, s.book.queued, s.dev.taken, s.book.finished)
    requires Progress(s.drv.info, s.bufs, s.dev.taken, s.book)
    ensures var s' := Submitted(s, p, b, out, x, y, z);
            Progress(s'.drv.info, s'.bufs, s'.dev.taken, s'.book)
  {
    var s' := Submitted(s, p, b, out, x, y, z);
    assert forall h :: h in s'.book.queued <==> h in s.book.queued || h == x;
    forall h | h in s'.book.reqs ensures Progressed(s'.drv.info, s'.bufs, s'.dev.taken, s'.book, h) {
      if h != x {
        assert Progressed(s.drv.info, s.bufs, s.dev.taken, s.book, h);
        SubmitOtherBuffer(s, p, b, h);
      }
    }
  }

  lemma SubmitContents(s: System, p: nat, b: nat, out: bool, x: nat, y: nat, z: nat)
    requires MaySubmit(s, p, b) && Usable(s.drv.free, x, y, z) && x !in s.book.reqs
    requires Links(s.drv.ops, s.bufs, s.procs, s.book.sectors, s.book.reqs)
    requires Contents(s.bufs, s.dev, s.book)
    ensures var s' := Submitted(s, p, b, out, x, y, z); Contents(s'.bufs, s'.dev, s'.book)
  {
    var s' := Submitted(s, p, b, out, x, y, z);
    assert forall h :: h in s'.book.queued <==> h in s.book.queued || h == x;
    forall h | h in s.book.reqs
      ensures Content(s'.bufs, s'.dev.platter, s.book.reqs[h], h !in s.book.queued && h !in s.dev.taken)
    {
      assert Content(s.bufs, s.dev.platter, s.book.reqs[h], h !in s.book.queued && h !in s.dev.taken);
      SubmitOtherBuffer(s, p, b, h);
    }
  }

  lemma SubmitInv(s: System, p: nat, b: nat, out: bool)
    requires Inv(s) && SubmitStep(s, p, b, out).Next? && Alloc3(s.drv.free).Some?
    ensures Inv(SubmitStep(s, p, b, out).s)
  {
    var (x, y, z) := Alloc3(s.drv.free).value;
    var s' := Submitted(s, p, b, out, x, y, z);
    EnqueueChains(s.drv, b, s.bufs[b].blockno, out, x, y, z, s.book.reqs, s.book.owner, s'.book.reqs[x]);
    SubmitRings(s, p, b, out, x, y, z);
    SubmitLinks(s, p, b, out, x, y, z);
    SubmitProgress(s, p, b, out, x, y, z);
    SubmitContents(s, p, b, out, x, y, z);
    assert x in s'.book.reqs;
  }

  // Going to sleep for descriptors touches nobody's request.
  lemma SleepInv(s: System, p: nat, b: nat, out: bool)
    requires Inv(s) && SubmitStep(s, p, b, out).Next? && Alloc3(s.drv.free).None?
    ensures Inv(SubmitStep(s, p, b, out).s)
  {
    NoneFree(s.drv, s.book.reqs, s.book.owner);
    var s' := SubmitStep(s, p, b, out).s;
    WokenLinks(s.drv.ops, s.bufs, s.procs, s'.procs, s.book.sectors, s.book.reqs);
  }

  lemma WokenLinks(ops: seq<BlkReq>, bufs: seq<Buf>, procs: seq<Proc>, procs': seq<Proc>, sectors: map<nat, nat>,
      reqs: map<nat, Req>)
    requires Links(ops, bufs, procs, sectors, reqs) && |procs'| == |procs|
    requires forall q :: 0 <= q < |procs| ==>
      procs'[q] == procs[q] || (!procs[q].Waiting? && !procs'[q].Waiting?)
    ensures Links(ops, bufs, procs', sectors, reqs)
  {
    forall h | h in reqs ensures Linked(ops, bufs, procs', sectors, h, reqs[h]) {
      assert Linked(ops, bufs, procs, sectors, h, reqs[h]);
    }
  }

  // ---------------------------------------------------------------- device

  lemma TakePlaces(reqs: map<nat, Req>, queued: seq<nat>, taken: set<nat>, finished: seq<nat>)
    requires Places(reqs, queued, taken, finished) && queued != []
    ensures Places(reqs, queued[1..], taken + {queued[0]}, finished)
    ensures forall h :: h in queued || h in taken <==> h in queued[1..] || h in taken + {queued[0]}
  {
    assert queued == [queued[0]] + queued[1..];
  }

  lemma TakeRings(s: System)
    requires Rings(s.drv, s.dev, s.book)
    ensures !DeviceTakeStep(s).Panic?
    ensures DeviceTakeStep(s).Next? ==>
      s.book.queued != [] && DeviceTakeStep(s).s == Taking(s, s.book.queued[0])
      && Rings(s.drv, DeviceTakeStep(s).s.dev, DeviceTakeStep(s).s.book)
  {
    var bk := s.book;
    WrapEqual(bk.puts, bk.takes);
    if bk.queued != [] {
      WrapIndex(bk.takes);
      RingGet(s.drv.avail, bk.takes, bk.queued);
    }
  }

  lemma TakeInv(s: System)
    requires Inv(s) && DeviceTakeStep(s).Next?
    ensures Inv(DeviceTakeStep(s).s)
  {
    TakeRings(s);
    TakePlaces(s.book.reqs, s.book.queued, s.dev.taken, s.book.finished);
    var s' := DeviceTakeStep(s).s;
    forall h | h in s.book.reqs ensures Progressed(s'.drv.info, s'.bufs, s'.dev.taken, s'.book, h) {
      assert Progressed(s.drv.info, s.bufs, s.dev.taken, s.book, h);
    }
  }

  // The device reads exactly the request that the driver wrote.
  lemma DecodeIsRequest(s: System, h: nat)
    requires Inv(s) && h in s.book.reqs
    ensures var r := s.book.reqs[h];
            && r.b < |s.bufs|
            && Decode(s.drv, h) == Some(Transfer(Sector(s.bufs[r.b].blockno), r.b, r.out, h))
  {
    assert ChainOk(s.drv, h, s.book.reqs[h]);
    assert Linked(s.drv.ops, s.bufs, s.procs, s.book.sectors, h, s.book.reqs[h]);
  }

  lemma FinishPlaces(reqs: map<nat, Req>, queued: seq<nat>, taken: set<nat>, finished: seq<nat>, h: nat)
    requires Places(reqs, queued, taken, finished) && h in taken
    requires forall g :: g in reqs ==> g < NUM
    ensures Places(reqs, queued, taken - {h}, finished + [h])
    ensures |finished| < NUM
    ensures forall g :: g in finished + [h] <==> g in finished || g == h
  {
    assert forall k :: 0 <= k < |finished| ==> finished[k] in finished;
    DistinctFits(finished + [h], NUM);
  }

  // No other request shares the buffer or the sector of request h.
  lemma Alone(s: System, h: nat, g: nat)
    requires Inv(s) && h in s.book.reqs && g in s.book.reqs && h != g
    ensures s.book.reqs[h].b < |s.bufs| && s.book.reqs[g].b < |s.bufs| && s.book.reqs[h].b != s.book.reqs[g].b
    ensures Sector(s.bufs[s.book.reqs[h].b].blockno) != Sector(s.bufs[s.book.reqs[g].b].blockno)
  {
    assert Linked(s.drv.ops, s.bufs, s.procs, s.book.sectors, h, s.book.reqs[h]);
    assert Linked(s.drv.ops, s.bufs, s.procs, s.book.sectors, g, s.book.reqs[g]);
  }

  lemma FinishLinks(s: System, h: nat)
    requires Inv(s) && h in s.book.reqs && h in s.dev.taken
    ensures var r := s.book.reqs[h];
            && r.b < |s.bufs| && Sized(s.drv) && |s.dev.used| == NUM && h < NUM
            && Sector(s.bufs[r.b].blockno) in s.dev.platter
            && (var s' := Finishing(s, h, Sector(s.bufs[r.b].blockno), r.b, r.out, h);
                && Chains(s'.drv, s'.book.reqs, s'.book.owner)
                && Links(s'.drv.ops, s'.bufs, s'.procs, s'.book.sectors, s'.book.reqs))
  {
    var r := s.book.reqs[h];
    assert ChainOk(s.drv, h, r);
    assert Content(s.bufs, s.dev.platter, r, false);
    var s' := Finishing(s, h, Sector(s.bufs[r.b].blockno), r.b, r.out, h);
    forall g | g in s.book.reqs
      ensures ChainOk(s'.drv, g, s.book.reqs[g])
      ensures Linked(s'.drv.ops, s'.bufs, s'.procs, s'.book.sectors, g, s.book.reqs[g])
    {
      assert ChainOk(s.drv, g, s.book.reqs[g]);
      assert Linked(s.drv.ops, s.bufs, s.procs, s.book.sectors, g, s.book.reqs[g]);
    }
  }

  lemma FinishContent(s: System, h: nat, g: nat)
    requires Inv(s) && h in s.book.reqs && h in s.dev.taken && g in s.book.reqs
    ensures var r := s.book.reqs[h];
            && r.b < |s.bufs| && Sized(s.drv) && |s.dev.used| == NUM && h < NUM
            && Sector(s.bufs[r.b].blockno) in s.dev.platter
            && (var s' := Finishing(s, h, Sector(s.bufs[r.b].blockno), r.b, r.out, h);
                Content(s'.bufs, s'.dev.platter, s.book.reqs[g], g !in s.book.queued && g !in s.dev.taken - {h}))
  {
    assert ChainOk(s.drv, h, s.book.reqs[h]);
    assert Content(s.bufs, s.dev.platter, s.book.reqs[h], false);
    assert Content(s.bufs, s.dev.platter, s.book.reqs[g], g !in s.book.queued && g !in s.dev.taken);
    if g != h {
      Alone(s, h, g);
    }
  }

  lemma FinishProgress(s: System, h: nat)
    requires Inv(s) && h in s.book.reqs && h in s.dev.taken
    requires s.book.reqs[h].b < |s.bufs| && |s.dev.used| == NUM && h < NUM
    requires Sector(s.bufs[s.book.reqs[h].b].blockno) in s.dev.platter
    ensures var r := s.book.reqs[h];
            var s' := Finishing(s, h, Sector(s.bufs[r.b].blockno), r.b, r.out, h);
            Progress(s'.drv.info, s'.bufs, s'.dev.taken, s'.book)
  {
    FinishPlaces(s.book.reqs, s.book.queued, s.dev.taken, s.book.finished, h);
    var r := s.book.reqs[h];
    var s' := Finishing(s, h, Sector(s.bufs[r.b].blockno), r.b, r.out, h);
    forall g | g in s.book.reqs ensures Progressed(s'.drv.info, s'.bufs, s'.dev.taken, s'.book, g) {
      assert Progressed(s.drv.info, s.bufs, s.dev.taken, s.book, g);
    }
  }

  lemma FinishRings(s: System, h: nat, sector: nat, b: nat, out: bool)
    requires Rings(s.drv, s.dev, s.book) && |s.book.finished| < NUM
    requires Sized(s.drv) && h < NUM && b < |s.bufs| && sector in s.dev.platter
    ensures var s' := Finishing(s, h, sector, b, out, h);
            Rings(s'.drv, s'.dev, s'.book)
  {
    WrapIndex(s.book.posts);
    RingPut(s.dev.used, s.book.seen, s.book.finished, h);
  }

  lemma FinishInv(s: System, h: nat)
    requires Inv(s)
    ensures !DeviceFinishStep(s, h).Panic?
    ensures DeviceFinishStep(s, h).Next? ==> Inv(DeviceFinishStep(s, h).s)
  {
    if h in s.dev.taken {
      var r := s.book.reqs[h];
      DecodeIsRequest(s, h);
      FinishLinks(s, h);
      FinishPlaces(s.book.reqs, s.book.queued, s.dev.taken, s.book.finished, h);
      FinishRings(s, h, Sector(s.bufs[r.b].blockno), r.b, r.out);
      FinishProgress(s, h);
      var s' := Finishing(s, h, Sector(s.bufs[r.b].blockno), r.b, r.out, h);
      forall g | g in s.book.reqs
        ensures Content(s'.bufs, s'.dev.platter, s'.book.reqs[g], g !in s'.book.queued && g !in s'.dev.taken)
      {
        FinishContent(s, h, g);
      }
    }
  }

  // ------------------------------------------------------------- interrupt

  // The used entry that the handler looks at names a finished request, its
  // status is 0, and info[] leads to that request's buffer.
  lemma HandlesRightBuffer(s: System)
    requires Inv(s) && s.book.finished != []
    ensures var h := s.book.finished[0];
            && h in s.book.reqs && h < NUM && Sized(s.drv) && |s.dev.used| == NUM
            && s.dev.used[s.drv.usedIdx % NUM] == h
            && s.drv.info[h] == Info(Some(s.book.reqs[h].b), 0)
            && s.book.reqs[h].b < |s.bufs|
  {
    WrapIndex(s.book.seen);
    RingGet(s.dev.used, s.book.seen, s.book.finished);
    var h := s.book.finished[0];
    assert h in s.book.finished;
    assert ChainOk(s.drv, h, s.book.reqs[h]) && Progressed(s.drv.info, s.bufs, s.dev.taken, s.book, h);
  }

  lemma HandlePlaces(reqs: map<nat, Req>, queued: seq<nat>, taken: set<nat>, finished: seq<nat>)
    requires Places(reqs, queued, taken, finished) && finished != []
    ensures Places(reqs, queued, taken, finished[1..])
    ensures forall g :: g in finished[1..] <==> g in finished && g != finished[0]
  {
    assert finished == [finished[0]] + finished[1..];
  }

  lemma HandleProgress(s: System)
    requires Inv(s) && s.book.finished != []
    requires s.book.finished[0] in s.book.reqs && s.book.reqs[s.book.finished[0]].b < |s.bufs|
    ensures var s' := Handling(s, s.book.reqs[s.book.finished[0]].b);
            && Progress(s'.drv.info, s'.bufs, s'.dev.taken, s'.book)
            && Places(s'.book.reqs, s'.book.queued, s'.dev.taken, s'.book.finished)
  {
    var f := s.book.finished;
    HandlePlaces(s.book.reqs, s.book.queued, s.dev.taken, f);
    var s' := Handling(s, s.book.reqs[f[0]].b);
    forall g | g in s.book.reqs ensures Progressed(s'.drv.info, s'.bufs, s'.dev.taken, s'.book, g) {
      assert Progressed(s.drv.info, s.bufs, s.dev.taken, s.book, g);
      if g != f[0] {
        Alone(s, f[0], g);
      }
    }
  }

  lemma HandleLinks(s: System, b: nat)
    requires Inv(s) && s.book.finished != [] && b < |s.bufs|
    ensures var s' := Handling(s, b);
            && Links(s'.drv.ops, s'.bufs, s'.procs, s'.book.sectors, s'.book.reqs)
            && Chains(s'.drv, s'.book.reqs, s'.book.owner)
            && Contents(s'.bufs, s'.dev, s'.book)
  {
    var s' := Handling(s, b);
    forall g | g in s.book.reqs
      ensures Linked(s'.drv.ops, s'.bufs, s'.procs, s'.book.sectors, g, s.book.reqs[g])
      ensures ChainOk(s'.drv, g, s.book.reqs[g])
      ensures Content(s'.bufs, s'.dev.platter, s.book.reqs[g], g !in s.book.queued && g !in s.dev.taken)
    {
      assert ChainOk(s.drv, g, s.book.reqs[g]);
      assert Linked(s.drv.ops, s.bufs, s.procs, s.book.sectors, g, s.book.reqs[g]);
      assert Content(s.bufs, s.dev.platter, s.book.reqs[g], g !in s.book.queued && g !in s.dev.taken);
    }
  }

  lemma HandleRings(s: System, b: nat)
    requires Rings(s.drv, s.dev, s.book) && s.book.finished != [] && b < |s.bufs|
    ensures var s' := Handling(s, b); Rings(s'.drv, s'.dev, s'.book)
  {
    WrapIndex(s.book.seen);
    RingGet(s.dev.used, s.book.seen, s.book.finished);
  }

  lemma NothingUnseen(s: System)
    requires Rings(s.drv, s.dev, s.book)
    ensures s.drv.usedIdx == s.dev.idx <==> s.book.finished == []
  {
    WrapEqual(s.book.posts, s.book.seen);
  }

  lemma InterruptInv(s: System)
    requires Inv(s)
    ensures !InterruptStep(s).Panic?
    ensures InterruptStep(s).Next? ==> Inv(InterruptStep(s).s)
  {
    NothingUnseen(s);
    if s.book.finished != [] {
      HandlesRightBuffer(s);
      var b := s.book.reqs[s.book.finished[0]].b;
      HandleProgress(s);
      HandleLinks(s, b);
      HandleRings(s, b);
    }
  }

  // ---------------------------------------------------------------- return

  // free_chain() gives back exactly the three descriptors of the chain.
  lemma FreesChain(d: Driver, h: nat, r: Req)
    requires ChainOk(d, h, r) && !d.free[h] && !d.free[r.mid] && !d.free[r.last]
    ensures FreeChain(d.free, d.desc, h) ==
      Some((d.free[h := true][r.mid := true][r.last := true],
            d.desc[h := Cleared][r.mid := Cleared][r.last := Cleared]))
  {
    var f1, d1 := d.free[h := true], d.desc[h := Cleared];
    var f2, d2 := f1[r.mid := true], d1[r.mid := Cleared];
    assert FreeChain(f2, d2, r.last) == Some((f2[r.last := true], d2[r.last := Cleared]));
    assert FreeChain(f1, d1, r.mid) == FreeChain(f2, d2, r.last);
  }

  lemma ReturnOtherChain(d: Driver, h: nat, r: Req, g: nat, rg: Req, owner: seq<int>, d': Driver)
    requires ChainOk(d, h, r) && Owns(owner, h, r) && ChainOk(d, g, rg) && Owns(owner, g, rg) && g != h
    requires d' == d.(free := d'.free, desc := d.desc[h := Cleared][r.mid := Cleared][r.last := Cleared],
                      info := d.info[h := d.info[h].(b := None)])
    requires |d'.free| == NUM
    ensures ChainOk(d', g, rg) && Owns(owner[h := -1][r.mid := -1][r.last := -1], g, rg)
  {
  }

  lemma ReturnOwner(free: seq<bool>, reqs: map<nat, Req>, owner: seq<int>, h: nat, i: nat)
    requires |free| == |owner| == NUM && i < NUM && h in reqs && Owns(owner, h, reqs[h])
    requires free[i] <==> owner[i] == -1
    requires owner[i] != -1 ==> InChain(reqs, owner[i], i)
    ensures var r := reqs[h];
            var free', owner' := free[h := true][r.mid := true][r.last := true], owner[h := -1][r.mid := -1][r.last := -1];
            (free'[i] <==> owner'[i] == -1) && (owner'[i] != -1 ==> InChain(reqs - {h}, owner'[i], i))
  {
  }

  lemma ReturnChains(d: Driver, reqs: map<nat, Req>, owner: seq<int>, h: nat, d': Driver)
    requires Chains(d, reqs, owner) && h in reqs && h < NUM && reqs[h].mid < NUM && reqs[h].last < NUM
    requires d' == d.(free := d.free[h := true][reqs[h].mid := true][reqs[h].last := true],
                      desc := d.desc[h := Cleared][reqs[h].mid := Cleared][reqs[h].last := Cleared],
                      info := d.info[h := d.info[h].(b := None)])
    ensures Chains(d', reqs - {h}, owner[h := -1][reqs[h].mid := -1][reqs[h].last := -1])
  {
    var r := reqs[h];
    var reqs', owner' := reqs - {h}, owner[h := -1][r.mid := -1][r.last := -1];
    assert ChainOk(d, h, r) && Owns(owner, h, r);
    forall g | g in reqs' ensures ChainOk(d', g, reqs'[g]) && Owns(owner', g, reqs'[g]) {
      assert ChainOk(d, g, reqs[g]) && Owns(owner, g, reqs[g]);
      ReturnOtherChain(d, h, r, g, reqs[g], owner, d');
    }
    forall i | 0 <= i < NUM
      ensures d'.free[i] <==> owner'[i] == -1
      ensures owner'[i] != -1 ==> InChain(reqs', owner'[i], i)
    {
      ReturnOwner(d.free, reqs, owner, h, i);
    }
  }

  // The caller of a finished request: what it is about to give back.
  ghost predicate MayReturn(s: System, p: nat, h: nat) {
    && p < |s.procs| && s.procs[p] == Waiting(h)
    && h in s.book.reqs && h < NUM && s.book.reqs[h].p == p
    && ChainOk(s.drv, h, s.book.reqs[h]) && s.book.reqs[h].b < |s.bufs|
    && h !in s.book.queued && h !in s.dev.taken && h !in s.book.finished
  }

  lemma ReadyToReturn(s: System, p: nat)
    requires Inv(s) && p < |s.procs| && s.procs[p].Waiting?
    ensures var h := s.procs[p].h;
            && h in s.book.reqs && s.book.reqs[h].b < |s.bufs|
            && (!s.bufs[s.book.reqs[h].b].disk <==> MayReturn(s, p, h))
  {
    var h := s.procs[p].h;
    assert ChainOk(s.drv, h, s.book.reqs[h]) && Progressed(s.drv.info, s.bufs, s.dev.taken, s.book, h);
  }

  lemma ReturnIs(s: System, p: nat)
    requires Inv(s) && p < |s.procs| && s.procs[p].Waiting? && MayReturn(s, p, s.procs[p].h)
    ensures |s.book.owner| == NUM && Sized(s.drv)
    ensures var h := s.procs[p].h;
            var r := s.book.reqs[h];
            ReturnStep(s, p) == Next(Returning(s, p, h, r,
              s.drv.free[h := true][r.mid := true][r.last := true],
              s.drv.desc[h := Cleared][r.mid := Cleared][r.last := Cleared]))
  {
    var h := s.procs[p].h;
    var r := s.book.reqs[h];
    assert Owns(s.book.owner, h, r);
    ReadyToReturn(s, p);
    FreesChain(s.drv, h, r);
  }

  lemma ReturnLinks(s: System, p: nat, h: nat, free: seq<bool>, desc: seq<Desc>)
    requires Inv(s) && MayReturn(s, p, h)
    ensures |s.book.owner| == NUM && Sized(s.drv)
    ensures var s' := Returning(s, p, h, s.book.reqs[h], free, desc);
            Links(s'.drv.ops, s'.bufs, s'.procs, s'.book.sectors, s'.book.reqs)
  {
    var s' := Returning(s, p, h, s.book.reqs[h], free, desc);
    assert Linked(s.drv.ops, s.bufs, s.procs, s.book.sectors, h, s.book.reqs[h]);
    forall g | g in s'.book.reqs
      ensures Linked(s'.drv.ops, s'.bufs, s'.procs, s'.book.sectors, g, s.book.reqs[g])
    {
      assert Linked(s.drv.ops, s.bufs, s.procs, s.book.sectors, g, s.book.reqs[g]);
      Alone(s, h, g);
    }
  }

  lemma ReturnRest(s: System, p: nat, h: nat, free: seq<bool>, desc: seq<Desc>)
    requires Inv(s) && MayReturn(s, p, h)
    ensures |s.book.owner| == NUM && Sized(s.drv)
    ensures var s' := Returning(s, p, h, s.book.reqs[h], free, desc);
            && Places(s'.book.reqs, s'.book.queued, s'.dev.taken, s'.book.finished)
            && Progress(s'.drv.info, s'.bufs, s'.dev.taken, s'.book)
            && Contents(s'.bufs, s'.dev, s'.book)
            && Sleepers(s'.procs, s'.book.reqs)
  {
    var s' := Returning(s, p, h, s.book.reqs[h], free, desc);
    forall g | g in s'.book.reqs
      ensures Content(s'.bufs, s'.dev.platter, s.book.reqs[g], g !in s.book.queued && g !in s.dev.taken)
      ensures Progressed(s'.drv.info, s'.bufs, s'.dev.taken, s'.book, g)
    {
      assert Content(s.bufs, s.dev.platter, s.book.reqs[g], g !in s.book.queued && g !in s.dev.taken);
      assert Progressed(s.drv.info, s.bufs, s.dev.taken, s.book, g);
      Alone(s, h, g);
    }
  }

  lemma ReturnInv(s: System, p: nat)
    requires Inv(s)
    ensures !ReturnStep(s, p).Panic?
    ensures ReturnStep(s, p).Next? ==> Inv(ReturnStep(s, p).s)
  {
    if p < |s.procs| && s.procs[p].Waiting? {
      ReadyToReturn(s, p);
      var h := s.procs[p].h;
      if MayReturn(s, p, h) {
        ReturnIs(s, p);
        var s' := ReturnStep(s, p).s;
        ReturnChains(s.drv, s.book.reqs, s.book.owner, h, s'.drv);
        ReturnLinks(s, p, h, s'.drv.free, s'.drv.desc);
        ReturnRest(s, p, h, s'.drv.free, s'.drv.desc);
      } else {
        ChainsBound(s, h);
      }
    }
  }

  lemma ChainsBound(s: System, h: nat)
    requires Inv(s) && h in s.book.reqs
    ensures h < NUM && |s.book.owner| == NUM && Sized(s.drv)
  {
    assert ChainOk(s.drv, h, s.book.reqs[h]);
  }

  // A buffer that no request uses may change in any way.
  lemma RefillInv(s: System, b: nat, blockno: nat, data: Data)
    requires Inv(s)
    ensures !RefillStep(s, b, blockno, data).Panic?
    ensures RefillStep(s, b, blockno, data).Next? ==> Inv(RefillStep(s, b, blockno, data).s)
  {
    if b < |s.bufs| && s.bufs[b].user.None? {
      var bufs := RefillStep(s, b, blockno, data).s.bufs;
      forall g | g in s.book.reqs
        ensures Linked(s.drv.ops, bufs, s.procs, s.book.sectors, g, s.book.reqs[g])
        ensures Content(bufs, s.dev.platter, s.book.reqs[g], g !in s.book.queued && g !in s.dev.taken)
        ensures Progressed(s.drv.info, bufs, s.dev.taken, s.book, g)
      {
        assert Progressed(s.drv.info, s.bufs, s.dev.taken, s.book, g);
        assert Linked(s.drv.ops, s.bufs, s.procs, s.book.sectors, g, s.book.reqs[g]);
        assert Content(s.bufs, s.dev.platter, s.book.reqs[g], g !in s.book.queued && g !in s.dev.taken);
      }
    }
  }

  // ---------------------------------------------------------- whole runs

  lemma InvStep(s: System, step: Step)
    requires Inv(s)
    ensures !Step1(s, step).Panic?
    ensures Step1(s, step).Next? ==> Inv(Step1(s, step).s)
  {
    match step
    case Submit(p, b, out) =>
      if SubmitStep(s, p, b, out).Next? {
        if Alloc3(s.drv.free).Some? {
          SubmitInv(s, p, b, out);
        } else {
          SleepInv(s, p, b, out);
        }
      }
    case DeviceTake =>
      TakeRings(s);
      if DeviceTakeStep(s).Next? {
        TakeInv(s);
      }
    case DeviceFinish(h) => FinishInv(s, h);
    case Interrupt => InterruptInv(s);
    case Return(p) => ReturnInv(s, p);
    case Refill(b, blockno, data) => RefillInv(s, b, blockno, data);
  }

  lemma {:induction false} InvRun(s: System, steps: seq<Step>, s': System)
    requires Inv(s) && Run(s, steps, s')
    ensures Inv(s')
    decreases |steps|
  {
    if steps != [] {
      InvStep(s, steps[0]);
      InvRun(Step1(s, steps[0]).s, steps[1..], s');
    }
  }

  lemma InitInv(s: System)
    requires Init(s)
    ensures Inv(s)
  {
  }

  // No panic of the driver, and no chain the device cannot make sense of, in
  // any state of any run.
  lemma NoPanic(s0: System, steps: seq<Step>, s: System, step: Step)
    requires Init(s0) && Run(s0, steps, s)
    ensures !Step1(s, step).Panic?
  {
    InitInv(s0);
    InvRun(s0, steps, s);
    InvStep(s, step);
  }

  // Each descriptor is free, or in exactly one chain of three.
  lemma FreeOrInOneChain(s0: System, steps: seq<Step>, s: System, i: nat)
    requires Init(s0) && Run(s0, steps, s) && i < NUM
    ensures |s.drv.free| == NUM
    ensures !s.drv.free[i] <==> exists h :: InChain(s.book.reqs, h, i)
    ensures forall g, h :: InChain(s.book.reqs, g, i) && InChain(s.book.reqs, h, i) ==> g == h
  {
    InitInv(s0);
    InvRun(s0, steps, s);
    forall h | InChain(s.book.reqs, h, i) ensures s.book.owner[i] == h {
      assert Owns(s.book.owner, h, s.book.reqs[h]);
    }
    if !s.drv.free[i] {
      assert InChain(s.book.reqs, s.book.owner[i], i);
    }
  }

  // The avail entries that the device has yet to read are intact, however
  // often the 16-bit indices have wrapped, and the device sees none beyond.
  lemma UnreadEntriesIntact(s0: System, steps: seq<Step>, s: System)
    requires Init(s0) && Run(s0, steps, s)
    ensures |s.drv.avail| == NUM && |s.book.queued| <= NUM
    ensures forall k :: 0 <= k < |s.book.queued| ==> s.drv.avail[(s.dev.lastAvail + k) % NUM] == s.book.queued[k]
    ensures s.drv.availIdx == (s.dev.lastAvail + |s.book.queued|) % WRAP
    ensures s.drv.availIdx == s.dev.lastAvail <==> s.book.queued == []
  {
    InitInv(s0);
    InvRun(s0, steps, s);
    var bk := s.book;
    WrapEqual(bk.puts, bk.takes);
    forall k | 0 <= k < |bk.queued|
      ensures s.drv.avail[(s.dev.lastAvail + k) % NUM] == bk.queued[k]
    {
      WrapIndex(bk.takes);
      ModShift(s.dev.lastAvail, bk.takes, k);
    }
    WrapShift(bk.takes, |bk.queued|);
  }

  lemma ModShift(a: nat, b: nat, k: nat)
    requires a % NUM == b % NUM
    ensures (a + k) % NUM == (b + k) % NUM
  {
  }

  lemma WrapShift(n: nat, k: nat)
    requires k <= NUM
    ensures (n % WRAP + k) % WRAP == (n + k) % WRAP
  {
  }

  // virtio_disk_rw() returns only after the device has carried out its own
  // request, and then buffer and disk hold what the request was for: the
  // buffer's data at the call if it was a write, the disk's if it was a read.
  lemma ReturnsAfterTransfer(s0: System, steps: seq<Step>, s: System, p: nat)
    requires Init(s0) && Run(s0, steps, s) && ReturnStep(s, p).Next?
    ensures var h := s.procs[p].h;
            && h in s.book.reqs && s.book.reqs[h].p == p
            && h !in s.book.queued && h !in s.dev.taken && h !in s.book.finished
            && s.book.reqs[h].b < |s.bufs|
            && s.bufs[s.book.reqs[h].b].data == s.book.reqs[h].content
            && Sector(s.bufs[s.book.reqs[h].b].blockno) in s.dev.platter
            && s.dev.platter[Sector(s.bufs[s.book.reqs[h].b].blockno)] == s.book.reqs[h].content
  {
    InitInv(s0);
    InvRun(s0, steps, s);
    ReadyToReturn(s, p);
    var h := s.procs[p].h;
    assert Content(s.bufs, s.dev.platter, s.book.reqs[h], h !in s.book.queued && h !in s.dev.taken);
  }

  // A call of virtio_disk_rw(): the caller, its chain, buffer and direction, and the block
  // number and content when it was made.
  datatype Call = Call(p: nat, h: nat, b: nat, out: bool, blockno: nat, content: Data)

  ghost predicate Underway(s: System, c: Call) {
    && c.p < |s.procs| && s.procs[c.p] == Waiting(c.h) && c.h in s.book.reqs && c.b < |s.bufs|
    && s.book.reqs[c.h].p == c.p && s.book.reqs[c.h].b == c.b && s.book.reqs[c.h].out == c.out
    && s.book.reqs[c.h].content == c.content && s.bufs[c.b].blockno == c.blockno
  }

  // What the others can see of it.
  ghost predicate Reserved(s: System, c: Call) {
    && c.h < |s.drv.free| && !s.drv.free[c.h] && c.b < |s.bufs| && s.bufs[c.b].user == Some(c.h)
    && forall q :: 0 <= q < |s.procs| && s.procs[q].Waiting? ==>
         s.procs[q].h in s.book.reqs && s.book.reqs[s.procs[q].h].p == q
  }

  lemma IsReserved(s: System, c: Call)
    requires Inv(s) && Underway(s, c)
    ensures Reserved(s, c)
  {
    assert Linked(s.drv.ops, s.bufs, s.procs, s.book.sectors, c.h, s.book.reqs[c.h]);
    assert Owns(s.book.owner, c.h, s.book.reqs[c.h]);
  }

  // Nobody else's step touches the request, the buffer's block number or the caller.
  lemma UnderwaySubmit(s: System, c: Call, p: nat, b: nat, out: bool)
    requires Underway(s, c) && Reserved(s, c) && SubmitStep(s, p, b, out).Next?
    ensures Underway(SubmitStep(s, p, b, out).s, c)
  {
  }

  lemma UnderwayFinish(s: System, c: Call, h: nat)
    requires Underway(s, c) && DeviceFinishStep(s, h).Next?
    ensures Underway(DeviceFinishStep(s, h).s, c)
  {
  }

  lemma UnderwayReturn(s: System, c: Call, p: nat)
    requires Underway(s, c) && Reserved(s, c) && p != c.p && ReturnStep(s, p).Next?
    ensures Underway(ReturnStep(s, p).s, c)
  {
  }

  lemma UnderwayStep(s: System, step: Step, c: Call)
    requires Underway(s, c) && Reserved(s, c) && Step1(s, step).Next? && step != Return(c.p)
    ensures Underway(Step1(s, step).s, c)
  {
    match step
    case Submit(p, b, out) => UnderwaySubmit(s, c, p, b, out);
    case DeviceTake =>
    case DeviceFinish(h) => UnderwayFinish(s, c, h);
    case Interrupt =>
    case Return(p) => UnderwayReturn(s, c, p);
    case Refill(_, _, _) =>
  }

  ghost predicate StaysIn(steps: seq<Step>, p: nat) {
    forall k :: 0 <= k < |steps| ==> steps[k] != Return(p)
  }

  lemma {:induction false} UnderwayRun(s: System, steps: seq<Step>, s': System, c: Call)
    requires Inv(s) && Run(s, steps, s') && StaysIn(steps, c.p) && Underway(s, c)
    ensures Inv(s') && Underway(s', c)
    decreases |steps|
  {
    if steps != [] {
      InvStep(s, steps[0]);
      IsReserved(s, c);
      UnderwayStep(s, steps[0], c);
      UnderwayRun(Step1(s, steps[0]).s, steps[1..], s', c);
    }
  }

  // What the call is to bring about: what the buffer holds then, or what the disk does.
  function Wanted(s: System, b: nat, out: bool): Data
    requires b < |s.bufs| && Sector(s.bufs[b].blockno) in s.dev.platter
  {
    if out then s.bufs[b].data else s.dev.platter[Sector(s.bufs[b].blockno)]
  }

  // The call in state s got its descriptors.
  ghost predicate Starts(s: System, p: nat, b: nat, out: bool) {
    SubmitStep(s, p, b, out).Next? && SubmitStep(s, p, b, out).s.procs[p].Waiting?
  }

  lemma StartsCall(s: System, p: nat, b: nat, out: bool) returns (c: Call)
    requires Starts(s, p, b, out)
    ensures b < |s.bufs| && Sector(s.bufs[b].blockno) in s.dev.platter && Underway(SubmitStep(s, p, b, out).s, c)
    ensures c.p == p && c.b == b && c.out == out && c.blockno == s.bufs[b].blockno && c.content == Wanted(s, b, out)
  {
    c := Call(p, SubmitStep(s, p, b, out).s.procs[p].h, b, out, s.bufs[b].blockno, Wanted(s, b, out));
  }

  lemma EndsCall(s: System, c: Call)
    requires Inv(s) && Underway(s, c) && ReturnStep(s, c.p).Next?
    ensures var s', sector := ReturnStep(s, c.p).s, Sector(c.blockno);
            && c.b < |s'.bufs| && s'.bufs[c.b].blockno == c.blockno && sector in s'.dev.platter
            && s'.dev.platter[sector] == s'.bufs[c.b].data == c.content
  {
    ReadyToReturn(s, c.p);
    assert Content(s.bufs, s.dev.platter, s.book.reqs[c.h], c.h !in s.book.queued && c.h !in s.dev.taken);
  }

  // virtio_disk_rw(b, out) from the call that got its descriptors, in state s, to its return,
  // in state s2, whatever happens in between: a write puts the buffer's data at the call on
  // the disk, and a read puts the disk's content at the call, which is still there, into the
  // buffer.
  lemma TransfersData(s0: System, before: seq<Step>, s: System, p: nat, b: nat, out: bool, during: seq<Step>,
      s2: System)
    requires Init(s0) && Run(s0, before, s) && Starts(s, p, b, out)
    requires Run(SubmitStep(s, p, b, out).s, during, s2) && StaysIn(during, p) && ReturnStep(s2, p).Next?
    ensures var s3 := ReturnStep(s2, p).s;
            && b < |s.bufs| && b < |s3.bufs| && s3.bufs[b].blockno == s.bufs[b].blockno
            && var sector := Sector(s.bufs[b].blockno);
               && sector in s.dev.platter && sector in s3.dev.platter
               && (out ==> s3.dev.platter[sector] == s3.bufs[b].data == s.bufs[b].data)
               && (!out ==> s3.dev.platter[sector] == s3.bufs[b].data == s.dev.platter[sector])
  {
    InitInv(s0);
    InvRun(s0, before, s);
    InvStep(s, Submit(p, b, out));
    var c := StartsCall(s, p, b, out);
    UnderwayRun(SubmitStep(s, p, b, out).s, during, s2, c);
    EndsCall(s2, c);
  }

  // Different blocks of a disk that 32-bit sector numbers reach have different sectors.
  lemma SectorsDiffer(a: nat, b: nat)
    requires a < 0x8000_0000 && b < 0x8000_0000 && a != b
    ensures Sector(a) != Sector(b)
  {
    assert a * 2 < 0x1_0000_0000 && b * 2 < 0x1_0000_0000;
  }

  // The interrupt handler clears b->disk of exactly the request at the head
  // of the unread used entries, which the device has carried out.
  lemma InterruptClearsOwner(s0: System, steps: seq<Step>, s: System)
    requires Init(s0) && Run(s0, steps, s) && InterruptStep(s).Next?
    ensures s.book.finished != [] && s.book.finished[0] in s.book.reqs
    ensures var r := s.book.reqs[s.book.finished[0]];
            && r.b < |s.bufs| && InterruptStep(s).s.bufs == s.bufs[r.b := s.bufs[r.b].(disk := false)]
            && s.book.finished[0] !in s.dev.taken && s.book.finished[0] !in s.book.queued
  {
    InitInv(s0);
    InvRun(s0, steps, s);
    InterruptInv(s);
    HandlesRightBuffer(s);
    assert s.book.finished[0] in s.book.finished;
  }

  // Whoever sleeps for descriptors does so while another caller has a request under way.
  lemma SleeperHasChain(s0: System, steps: seq<Step>, s: System, p: nat)
    requires Init(s0) && Run(s0, steps, s) && p < |s.procs| && s.procs[p] == Asleep
    ensures exists q :: 0 <= q < |s.procs| && s.procs[q].Waiting?
  {
    InitInv(s0);
    InvRun(s0, steps, s);
    var q := SomeWaiter(s, p);
  }

  lemma SomeWaiter(s: System, p: nat) returns (q: nat)
    requires Inv(s) && p < |s.procs| && s.procs[p] == Asleep
    ensures q < |s.procs| && s.procs[q].Waiting?
  {
    var h :| h in s.book.reqs;
    assert Linked(s.drv.ops, s.bufs, s.procs, s.book.sectors, h, s.book.reqs[h]);
    q := s.book.reqs[h].p;
  }

  // From there on, the device and the handler can always go on until a chain is given
  // back and the sleeper is woken.
  lemma SleeperWakes(s0: System, steps: seq<Step>, s: System, p: nat) returns (more: seq<Step>, s': System)
    requires Init(s0) && Run(s0, steps, s) && p < |s.procs| && s.procs[p] == Asleep
    ensures Run(s, more, s') && p < |s'.procs| && s'.procs[p] == Idle
  {
    InitInv(s0);
    InvRun(s0, steps, s);
    more, s' := ChainComesBack(s, p);
  }

  lemma {:induction false} ChainComesBack(s: System, p: nat) returns (more: seq<Step>, s': System)
    requires Inv(s) && p < |s.procs| && s.procs[p] == Asleep
    ensures Run(s, more, s') && p < |s'.procs| && s'.procs[p] == Idle
    decreases Ahead(s)
  {
    var step := NextMove(s, p);
    var o := Step1(s, step);
    InvStep(s, step);
    if step.Return? {
      more, s' := [step], o.s;
      assert Run(o.s, more[1..], s');
    } else {
      var rest;
      rest, s' := ChainComesBack(o.s, p);
      more := [step] + rest;
      assert more[1..] == rest;
    }
  }

  // The step brings some chain closer to its caller, or gives it back and wakes p.
  ghost predicate Helps(s: System, step: Step, p: nat) {
    && Step1(s, step).Next?
    && var s' := Step1(s, step).s;
       if step.Return? then p < |s'.procs| && s'.procs[p] == Idle else s'.procs == s.procs && Ahead(s') < Ahead(s)
  }

  lemma NextMove(s: System, p: nat) returns (step: Step)
    requires Inv(s) && p < |s.procs| && s.procs[p] == Asleep
    ensures Helps(s, step, p)
  {
    if s.book.finished != [] {
      step := Interrupt;
      InterruptMoves(s, p);
    } else if s.dev.taken != {} {
      var h :| h in s.dev.taken;
      step := DeviceFinish(h);
      FinishMoves(s, h, p);
    } else if s.book.queued != [] {
      step := DeviceTake;
      TakeMoves(s, p);
    } else {
      var q := SomeWaiter(s, p);
      step := Return(q);
      ReturnMoves(s, p, q);
    }
  }

  lemma InterruptMoves(s: System, p: nat)
    requires Inv(s) && s.book.finished != []
    ensures Helps(s, Interrupt, p)
  {
    NothingUnseen(s);
    HandlesRightBuffer(s);
  }

  lemma ReturnMoves(s: System, p: nat, q: nat)
    requires Inv(s) && p < |s.procs| && s.procs[p] == Asleep && q < |s.procs| && s.procs[q].Waiting?
    requires s.book.finished == [] && s.dev.taken == {} && s.book.queued == []
    ensures Helps(s, Return(q), p)
  {
    NowhereMayReturn(s, q);
    ReturnWakes(s, q);
  }

  lemma NowhereMayReturn(s: System, q: nat)
    requires Inv(s) && q < |s.procs| && s.procs[q].Waiting?
    requires s.book.finished == [] && s.dev.taken == {} && s.book.queued == []
    ensures MayReturn(s, q, s.procs[q].h)
  {
    ReadyToReturn(s, q);
    assert Progressed(s.drv.info, s.bufs, s.dev.taken, s.book, s.procs[q].h);
  }

  lemma ReturnWakes(s: System, q: nat)
    requires Inv(s) && q < |s.procs| && s.procs[q].Waiting? && MayReturn(s, q, s.procs[q].h)
    ensures ReturnStep(s, q).Next? && ReturnStep(s, q).s.procs == WakeDesc(s.procs[q := Idle])
  {
    ReturnIs(s, q);
  }

  function Ahead(s: System): nat {
    3 * |s.book.queued| + 2 * |s.dev.taken| + |s.book.finished|
  }

  lemma FinishMoves(s: System, h: nat, p: nat)
    requires Inv(s) && h in s.dev.taken
    ensures Helps(s, DeviceFinish(h), p)
  {
    DecodeIsRequest(s, h);
    FinishInv(s, h);
    var r := s.book.reqs[h];
    assert Content(s.bufs, s.dev.platter, r, h !in s.book.queued && h !in s.dev.taken);
    assert s.dev.taken == (s.dev.taken - {h}) + {h};
  }

  lemma TakeMoves(s: System, p: nat)
    requires Inv(s) && s.book.queued != []
    ensures Helps(s, DeviceTake, p)
  {
    WrapEqual(s.book.puts, s.book.takes);
    TakeRings(s);
    assert s.book.queued[0] in s.book.queued;
  }
}
