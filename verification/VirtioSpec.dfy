// The virtio disk: driver threads, the interrupt handler and a device that
// takes and completes requests in any order, sharing descriptors and two rings.
module VirtioSpec {
  import opened Common

  const NUM := 8
  const WRAP := 0x1_0000   // ring indices are 16-bit

  type Data = seq<bv8>

  // What a descriptor's addr field points at.
  datatype Addr = Null | Op(i: nat) | DataOf(b: nat) | Status(i: nat)

  datatype Desc = Desc(addr: Addr, write: bool, chained: bool, next: nat)
  const Cleared := Desc(Null, false, false, 0)

  datatype BlkReq = BlkReq(out: bool, sector: nat)
  datatype Info = Info(b: Option<nat>, status: nat)

  // struct disk, plus the avail ring that the driver fills.
  datatype Driver = Driver(
    free: seq<bool>, desc: seq<Desc>, ops: seq<BlkReq>, info: seq<Info>,
    avail: seq<nat>, availIdx: nat, usedIdx: nat)

  datatype Device = Device(
    lastAvail: nat,        // how far the device has read the avail ring
    taken: set<nat>,       // chains it is working on
    used: seq<nat>, idx: nat,
    platter: map<nat, Data>)

  // A buffer: blockno, b->disk, and whose request it is part of.
  datatype Buf = Buf(blockno: nat, data: Data, disk: bool, user: Option<nat>)

  datatype Proc =
    | Idle
    | Asleep            // in virtio_disk_rw(), on &disk.free[0]
    | Waiting(h: nat)   // in virtio_disk_rw(), on b, for chain h

  // Bookkeeping that no code reads: the requests by head descriptor, with the
  // content that buffer and disk must agree on in the end.
  datatype Req = Req(p: nat, b: nat, out: bool, mid: nat, last: nat, content: Data)
  datatype Book = Book(
    reqs: map<nat, Req>,
    queued: seq<nat>,      // avail entries the device has not read
    finished: seq<nat>,    // used entries the driver has not read
    owner: seq<int>,       // the chain each descriptor belongs to, or -1
    sectors: map<nat, nat>,
    puts: nat, takes: nat, posts: nat, seen: nat)   // unwrapped ring positions

  datatype System = System(drv: Driver, dev: Device, bufs: seq<Buf>, procs: seq<Proc>, book: Book)

  datatype Step =
    | Submit(p: nat, b: nat, out: bool)
    | DeviceTake
    | DeviceFinish(h: nat)
    | Interrupt
    | Return(p: nat)
    | Refill(b: nat, blockno: nat, data: Data)

  datatype Outcome = Next(s: System) | Panic(message: string) | Disabled

  // alloc_desc(): the first free descriptor, or -1.
  function FirstFree(free: seq<bool>): (i: int)
    ensures -1 <= i < |free|
    ensures i >= 0 ==> free[i] && forall j :: 0 <= j < i ==> !free[j]
    ensures i < 0 ==> forall j :: 0 <= j < |free| ==> !free[j]
  {
    FirstFreeFrom(free, 0)
  }

  function FirstFreeFrom(free: seq<bool>, from: nat): (i: int)
    requires from <= |free|
    ensures i == -1 || from <= i < |free|
    ensures i >= 0 ==> free[i] && forall j :: from <= j < i ==> !free[j]
    ensures i < 0 ==> forall j :: from <= j < |free| ==> !free[j]
    decreases |free| - from
  {
    if from == |free| then -1
    else if free[from] then from
    else FirstFreeFrom(free, from + 1)
  }

  // alloc3_desc(): three descriptors, or none.
  function Alloc3(free: seq<bool>): (r: Option<(nat, nat, nat)>)
    ensures r.Some? ==>
      var (x, y, z) := r.value;
      x < |free| && y < |free| && z < |free| && x != y && y != z && x != z && free[x] && free[y] && free[z]
  {
    var x := FirstFree(free);
    if x < 0 then None else
    var y := FirstFree(free[x := false]);
    if y < 0 then None else
    var z := FirstFree(free[x := false][y := false]);
    if z < 0 then None else Some((x, y, z))
  }

  // BSIZE / 512 sectors per block, computed in 32 bits.
  function Sector(blockno: nat): nat {
    blockno * 2 % 0x1_0000_0000
  }

  function WakeDesc(procs: seq<Proc>): (out: seq<Proc>)
    ensures |out| == |procs|
    ensures forall i :: 0 <= i < |out| ==> out[i] == if procs[i] == Asleep then Idle else procs[i]
  {
    seq(|procs|, i requires 0 <= i < |procs| => if procs[i] == Asleep then Idle else procs[i])
  }

  // Formats the chain x -> y -> z for buffer b and publishes it.
  function Enqueue(d: Driver, b: nat, blockno: nat, out: bool, x: nat, y: nat, z: nat): Driver
    requires x < |d.free| && y < |d.free| && z < |d.free|
    requires |d.free| == |d.desc| == |d.ops| == |d.info| == |d.avail| == NUM
  {
    d.(free := d.free[x := false][y := false][z := false],
       ops := d.ops[x := BlkReq(out, Sector(blockno))],
       desc := d.desc[x := Desc(Op(x), false, true, y)]
                     [y := Desc(DataOf(b), !out, true, z)]
                     [z := Desc(Status(x), true, false, 0)],
       info := d.info[x := Info(Some(b), 0xff)],
       avail := d.avail[d.availIdx % NUM := x],
       availIdx := (d.availIdx + 1) % WRAP)
  }

  predicate Sized(d: Driver) {
    |d.free| == |d.desc| == |d.ops| == |d.info| == |d.avail| == NUM
  }

  // virtio_disk_rw() from its start, or from a wakeup on &disk.free[0], to
  // its next sleep. The caller holds b's lock and the cache keeps one buffer
  // per block, so neither b nor its sectors are part of another request.
  function SubmitStep(s: System, p: nat, b: nat, out: bool): Outcome {
    if p >= |s.procs| || b >= |s.bufs| || !Sized(s.drv) || |s.book.owner| != NUM || !s.procs[p].Idle?
       || s.bufs[b].user.Some? || Sector(s.bufs[b].blockno) in s.book.sectors
       || Sector(s.bufs[b].blockno) !in s.dev.platter then Disabled
    else match Alloc3(s.drv.free)
      case None =>
        // the descriptors grabbed before failing are freed again, with a wakeup
        var procs := if FirstFree(s.drv.free) >= 0 then WakeDesc(s.procs) else s.procs;
        Next(s.(procs := procs[p := Asleep]))
      case Some((x, y, z)) => Next(Submitted(s, p, b, out, x, y, z))
  }

  function Submitted(s: System, p: nat, b: nat, out: bool, x: nat, y: nat, z: nat): System
    requires p < |s.procs| && b < |s.bufs| && Sized(s.drv) && |s.book.owner| == NUM
    requires x < NUM && y < NUM && z < NUM && Sector(s.bufs[b].blockno) in s.dev.platter
  {
    var buf := s.bufs[b];
    var content := if out then buf.data else s.dev.platter[Sector(buf.blockno)];
    System(
      Enqueue(s.drv, b, buf.blockno, out, x, y, z),
      s.dev,
      s.bufs[b := buf.(disk := true, user := Some(x))],
      s.procs[p := Waiting(x)],
      s.book.(reqs := s.book.reqs[x := Req(p, b, out, y, z, content)],
              queued := s.book.queued + [x],
              owner := s.book.owner[x := x][y := x][z := x],
              sectors := s.book.sectors[Sector(buf.blockno) := x],
              puts := s.book.puts + 1))
  }

  function DeviceTakeStep(s: System): Outcome {
    if s.drv.availIdx == s.dev.lastAvail || |s.drv.avail| != NUM then Disabled
    else if s.book.queued == [] then Panic("phantom avail entry")
    else Next(Taking(s, s.drv.avail[s.dev.lastAvail % NUM]))
  }

  function Taking(s: System, h: nat): System
    requires s.book.queued != []
  {
    System(s.drv,
           s.dev.(lastAvail := (s.dev.lastAvail + 1) % WRAP, taken := s.dev.taken + {h}),
           s.bufs, s.procs,
           s.book.(queued := s.book.queued[1..], takes := s.book.takes + 1))
  }

  // What the device makes of the chain at h, from the memory it can see.
  datatype Transfer = Transfer(sector: nat, b: nat, out: bool, status: nat)
  function Decode(d: Driver, h: nat): Option<Transfer>
    requires Sized(d)
  {
    if h >= NUM || !d.desc[h].addr.Op? || d.desc[h].addr.i >= NUM || !d.desc[h].chained || d.desc[h].next >= NUM then None
    else
      var req, y := d.ops[d.desc[h].addr.i], d.desc[d.desc[h].next];
      if !y.addr.DataOf? || y.write == req.out || !y.chained || y.next >= NUM then None
      else
        var z := d.desc[y.next];
        if !z.addr.Status? || z.addr.i >= NUM || !z.write || z.chained then None
        else Some(Transfer(req.sector, y.addr.b, req.out, z.addr.i))
  }

  // The device moves the data, sets the status byte and posts the head.
  function DeviceFinishStep(s: System, h: nat): Outcome {
    if h !in s.dev.taken || !Sized(s.drv) || |s.dev.used| != NUM then Disabled
    else if h !in s.book.reqs then Panic("phantom request")
    else match Decode(s.drv, h)
      case None => Panic("malformed chain")
      case Some(Transfer(sector, b, out, status)) =>
        if b >= |s.bufs| || sector !in s.dev.platter then Panic("bad transfer")
        else Next(Finishing(s, h, sector, b, out, status))
  }

  function Finishing(s: System, h: nat, sector: nat, b: nat, out: bool, status: nat): System
    requires Sized(s.drv) && |s.dev.used| == NUM && status < NUM && b < |s.bufs| && sector in s.dev.platter
  {
    System(
      s.drv.(info := s.drv.info[status := s.drv.info[status].(status := 0)]),
      s.dev.(taken := s.dev.taken - {h},
             used := s.dev.used[s.dev.idx % NUM := h],
             idx := (s.dev.idx + 1) % WRAP,
             platter := if out then s.dev.platter[sector := s.bufs[b].data] else s.dev.platter),
      if out then s.bufs else s.bufs[b := s.bufs[b].(data := s.dev.platter[sector])],
      s.procs,
      s.book.(finished := s.book.finished + [h], posts := s.book.posts + 1))
  }

  // One trip around virtio_disk_intr()'s loop.
  function InterruptStep(s: System): Outcome {
    if s.drv.usedIdx == s.dev.idx || !Sized(s.drv) || |s.dev.used| != NUM then Disabled
    else if s.book.finished == [] then Panic("phantom used entry")
    else
      var id := s.dev.used[s.drv.usedIdx % NUM];
      if id >= NUM then Panic("used id")
      else if s.drv.info[id].status != 0 then Panic("virtio_disk_intr status")
      else if s.drv.info[id].b.None? || s.drv.info[id].b.value >= |s.bufs| then Panic("no buffer")
      else
        Next(Handling(s, s.drv.info[id].b.value))
  }

  function Handling(s: System, b: nat): System
    requires b < |s.bufs| && s.book.finished != []
  {
    System(s.drv.(usedIdx := (s.drv.usedIdx + 1) % WRAP), s.dev,
           s.bufs[b := s.bufs[b].(disk := false)], s.procs,
           s.book.(finished := s.book.finished[1..], seen := s.book.seen + 1))
  }

  // free_chain(): follow next until the flag is clear; None is a panic.
  function FreeChain(free: seq<bool>, desc: seq<Desc>, i: nat): (r: Option<(seq<bool>, seq<Desc>)>)
    requires |free| == |desc|
    ensures r.Some? ==> |r.value.0| == |free| && |r.value.1| == |desc|
    decreases Taken(free)
  {
    if i >= |free| || free[i] then None
    else
      TakenDrops(free, i);
      var free', desc' := free[i := true], desc[i := Cleared];
      if desc[i].chained then FreeChain(free', desc', desc[i].next) else Some((free', desc'))
  }

  function Taken(free: seq<bool>): nat {
    if free == [] then 0 else Taken(free[..|free| - 1]) + (if free[|free| - 1] then 0 else 1)
  }

  lemma {:induction false} TakenDrops(free: seq<bool>, i: nat)
    requires i < |free| && !free[i]
    ensures Taken(free[i := true]) == Taken(free) - 1
  {
    var n := |free| - 1;
    if i == n {
      assert free[i := true][..n] == free[..n];
    } else {
      TakenDrops(free[..n], i);
      assert free[i := true][..n] == free[..n][i := true];
    }
  }

  // The end of virtio_disk_rw(): b->disk is 0, so the caller gives its three
  // descriptors back and returns.
  function ReturnStep(s: System, p: nat): Outcome {
    if p >= |s.procs| || !s.procs[p].Waiting? || !Sized(s.drv) then Disabled
    else
      var h := s.procs[p].h;
      if h !in s.book.reqs || s.book.reqs[h].b >= |s.bufs| || |s.book.owner| != NUM || h >= NUM then
        Panic("lost request")
      else if s.bufs[s.book.reqs[h].b].disk then Disabled   // goes back to sleep
      else
        var req := s.book.reqs[h];
        match FreeChain(s.drv.free, s.drv.desc, h)
        case None => Panic("free_desc")
        case Some((free, desc)) =>
          if req.mid >= NUM || req.last >= NUM then Panic("bad chain")
          else Next(Returning(s, p, h, req, free, desc))
  }

  function Returning(s: System, p: nat, h: nat, req: Req, free: seq<bool>, desc: seq<Desc>): System
    requires p < |s.procs| && Sized(s.drv) && |s.book.owner| == NUM
    requires h < NUM && req.mid < NUM && req.last < NUM && req.b < |s.bufs|
  {
    System(
      s.drv.(free := free, desc := desc, info := s.drv.info[h := s.drv.info[h].(b := None)]),
      s.dev,
      s.bufs[req.b := s.bufs[req.b].(user := None)],
      WakeDesc(s.procs[p := Idle]),
      s.book.(reqs := s.book.reqs - {h},
              owner := s.book.owner[h := -1][req.mid := -1][req.last := -1],
              sectors := s.book.sectors - {Sector(s.bufs[req.b].blockno)}))
  }

  // Outside the driver: the cache recycles a buffer for another block, or its holder
  // changes the data. The holder of a buffer in a request is in virtio_disk_rw().
  function RefillStep(s: System, b: nat, blockno: nat, data: Data): Outcome {
    if b >= |s.bufs| || s.bufs[b].user.Some? then Disabled
    else Next(s.(bufs := s.bufs[b := s.bufs[b].(blockno := blockno, data := data)]))
  }

  function Step1(s: System, step: Step): Outcome {
    match step
    case Submit(p, b, out) => SubmitStep(s, p, b, out)
    case DeviceTake => DeviceTakeStep(s)
    case DeviceFinish(h) => DeviceFinishStep(s, h)
    case Interrupt => InterruptStep(s)
    case Return(p) => ReturnStep(s, p)
    case Refill(b, blockno, data) => RefillStep(s, b, blockno, data)
  }

  // After virtio_disk_init().
  predicate Init(s: System) {
    && Sized(s.drv) && |s.dev.used| == NUM
    && (forall i :: 0 <= i < NUM ==> s.drv.free[i])
    && s.drv.availIdx == s.drv.usedIdx == s.dev.lastAvail == s.dev.idx == 0
    && s.dev.taken == {}
    && (forall b :: 0 <= b < |s.bufs| ==> s.bufs[b].user == None)
    && (forall p :: 0 <= p < |s.procs| ==> s.procs[p] == Idle)
    && s.book == Book(map[], [], [], seq(NUM, _ => -1), map[], 0, 0, 0, 0)
  }

  predicate Run(s: System, steps: seq<Step>, s': System)
    decreases |steps|
  {
    if steps == [] then s' == s
    else
      var mid := Step1(s, steps[0]);
      mid.Next? && Run(mid.s, steps[1..], s')
  }
}
