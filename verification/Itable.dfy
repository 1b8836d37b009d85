// The table of in-memory inodes while iput() frees an inode and ialloc(),
// iget() and ilock() bring the same number back into use.
module Itable {
  import opened Common

  // A dinode. Every ialloc() of the number starts a new generation.
  datatype Dinode = Dinode(kind: nat, nlink: nat, gen: nat)

  // struct inode: copy is what ilock() loaded, holder the reference that has
  // the sleep-lock, or -1. toks are the references counted by ref.
  datatype Slot = Slot(ref: nat, inum: nat, valid: bool, copy: Dinode, holder: int, toks: set<nat>)

  // How far the owner of a reference has come: it has allocated the inode on
  // disk but not called iget() yet, it uses the reference, or it is in the
  // freeing part of iput(): locked, written to disk, not valid, unlocked.
  datatype Stage = Pending | Using | Locked | Written | Invalid | Unlocked

  // A reference obtained for generation gen of inode inum.
  datatype Tok = Tok(inum: nat, slot: nat, stage: Stage, gen: nat)

  datatype State = State(
    slots: seq<Slot>, disk: seq<Dinode>,
    links: seq<nat>,        // directory entries that name each inode
    toks: map<nat, Tok>,
    home: seq<int>,         // the live slot of each inode number, or -1
    pending: seq<int>)      // the reference that ialloc() is about to make, or -1

  datatype Step =
    | Iget(t: nat, n: nat)            // through a directory entry
    | Idup(t: nat, u: nat)            // a copy u of reference t
    | Ilock(t: nat) | Iunlock(t: nat)
    | Link(t: nat) | Unlink(t: nat)   // change nlink, with iupdate()
    | Iput(t: nat)
    | FreeWrite(t: nat)               // itrunc(), type = 0, iupdate()
    | FreeInvalid(t: nat)
    | FreeUnlock(t: nat)
    | FreeDrop(t: nat)
    | AllocDisk(t: nat, n: nat, kind: nat)
    | AllocGet(t: nat)

  // ------------------------------------------------------------------ iget()

  // The first entry in use for n, from place i on; |slots| if there is none.
  function Find(slots: seq<Slot>, n: nat, i: nat): (r: nat)
    requires i <= |slots|
    ensures i <= r <= |slots| && (r < |slots| ==> slots[r].ref > 0 && slots[r].inum == n)
    ensures forall k :: i <= k < r ==> !(slots[k].ref > 0 && slots[k].inum == n)
    decreases |slots| - i
  {
    if i == |slots| || (slots[i].ref > 0 && slots[i].inum == n) then i else Find(slots, n, i + 1)
  }

  function FindEmpty(slots: seq<Slot>, i: nat): (r: nat)
    requires i <= |slots|
    ensures i <= r <= |slots| && (r < |slots| ==> slots[r].ref == 0)
    decreases |slots| - i
  {
    if i == |slots| || slots[i].ref == 0 then i else FindEmpty(slots, i + 1)
  }

  // The slot that iget(n) uses; |slots| stands for the panic.
  function Choice(slots: seq<Slot>, n: nat): nat {
    if Find(slots, n, 0) < |slots| then Find(slots, n, 0) else FindEmpty(slots, 0)
  }

  // One more reference t, on an entry in use or a recycled one.
  function Claimed(x: Slot, n: nat, t: nat): Slot {
    if x.ref > 0 then x.(ref := x.ref + 1, toks := x.toks + {t})
    else x.(ref := 1, inum := n, valid := false, toks := {t})
  }

  function AttachAt(s: State, i: nat, n: nat, t: nat): State
    requires i < |s.slots| && n < |s.disk| == |s.home|
  {
    s.(slots := s.slots[i := Claimed(s.slots[i], n, t)], toks := s.toks[t := Tok(n, i, Using, s.disk[n].gen)],
       home := s.home[n := i])
  }

  function Attach(s: State, n: nat, t: nat): Option<State>
    requires n < |s.disk| == |s.home|
  {
    var i := Choice(s.slots, n);
    if i < |s.slots| then Some(AttachAt(s, i, n, t)) else None
  }

  // ref--
  function Dropped(x: Slot, t: nat): Slot {
    x.(ref := if x.ref > 0 then x.ref - 1 else 0, toks := x.toks - {t})
  }

  function Detach(s: State, t: nat, i: nat, n: nat): State
    requires i < |s.slots| && n < |s.home|
  {
    s.(slots := s.slots[i := Dropped(s.slots[i], t)], toks := s.toks - {t},
       home := if s.slots[i].ref <= 1 then s.home[n := -1] else s.home)
  }

  predicate Shape(s: State) {
    |s.disk| == |s.links| == |s.home| == |s.pending|
  }

  // Reference t exists, at this stage, and is in range.
  predicate At(s: State, t: nat, stage: Stage) {
    && t in s.toks && s.toks[t].stage == stage && s.toks[t].inum < |s.disk|
    && (!stage.Pending? ==> s.toks[t].slot < |s.slots|)
  }

  predicate MayFree(x: Slot) {
    x.ref == 1 && x.valid && x.copy.nlink == 0
  }

  function WithStage(s: State, t: nat, stage: Stage): State
    requires t in s.toks
  {
    s.(toks := s.toks[t := s.toks[t].(stage := stage)])
  }

  function Next(s: State, step: Step): Option<State>
    requires Shape(s)
  {
    match step
    case Iget(t, n) => if t !in s.toks && n < |s.disk| && s.links[n] > 0 then Attach(s, n, t) else None
    case Idup(t, u) =>
      if At(s, t, Using) && u !in s.toks then Some(AttachAt(s, s.toks[t].slot, s.toks[t].inum, u)) else None
    case Ilock(t) => if At(s, t, Using) then LockNext(s, t, s.toks[t].slot, s.toks[t].inum) else None
    case Iunlock(t) =>
      if At(s, t, Using) && s.slots[s.toks[t].slot].holder == t
      then Some(s.(slots := s.slots[s.toks[t].slot := s.slots[s.toks[t].slot].(holder := -1)])) else None
    case Link(t) => if At(s, t, Using) then LinkNext(s, t, s.toks[t].slot, s.toks[t].inum, 1) else None
    case Unlink(t) => if At(s, t, Using) then LinkNext(s, t, s.toks[t].slot, s.toks[t].inum, -1) else None
    case Iput(t) => if At(s, t, Using) then PutNext(s, t, s.toks[t].slot, s.toks[t].inum) else None
    case FreeWrite(t) =>
      if At(s, t, Locked) then
        var n := s.toks[t].inum;
        Some(WithStage(s, t, Written).(disk := s.disk[n := s.disk[n].(kind := 0, nlink := 0)]))
      else None
    case FreeInvalid(t) =>
      if At(s, t, Written) then
        var i := s.toks[t].slot;
        Some(WithStage(s, t, Invalid).(slots := s.slots[i := s.slots[i].(valid := false)]))
      else None
    case FreeUnlock(t) =>
      if At(s, t, Invalid) then
        var i := s.toks[t].slot;
        Some(WithStage(s, t, Unlocked).(slots := s.slots[i := s.slots[i].(holder := -1)]))
      else None
    case FreeDrop(t) => if At(s, t, Unlocked) then Some(Detach(s, t, s.toks[t].slot, s.toks[t].inum)) else None
    case AllocDisk(t, n, kind) =>
      if t !in s.toks && n < |s.disk| && s.disk[n].kind == 0 && kind > 0
      then Some(s.(disk := s.disk[n := Dinode(kind, 0, s.disk[n].gen + 1)],
                   toks := s.toks[t := Tok(n, 0, Pending, s.disk[n].gen + 1)], pending := s.pending[n := t]))
      else None
    case AllocGet(t) =>
      if At(s, t, Pending)
      then Attach(s.(pending := s.pending[s.toks[t].inum := -1]), s.toks[t].inum, t) else None
  }

  // ilock(): take the lock, and load the inode if it is not valid.
  function LockNext(s: State, t: nat, i: nat, n: nat): Option<State>
    requires i < |s.slots| && n < |s.disk|
  {
    if s.slots[i].holder != -1 then None
    else Some(s.(slots := s.slots[i := s.slots[i].(holder := t, valid := true,
                                                   copy := if s.slots[i].valid then s.slots[i].copy else s.disk[n])]))
  }

  // The holder changes nlink by d, on disk too, as it changes the directory.
  function LinkNext(s: State, t: nat, i: nat, n: nat, d: int): Option<State>
    requires i < |s.slots| && n < |s.disk| == |s.links|
  {
    if s.slots[i].holder != t || s.links[n] + d < 0 || s.slots[i].copy.nlink + d < 0 then None
    else
      var copy := s.slots[i].copy.(nlink := s.slots[i].copy.nlink + d);
      Some(s.(slots := s.slots[i := s.slots[i].(copy := copy)], disk := s.disk[n := copy],
              links := s.links[n := s.links[n] + d]))
  }

  // iput() by someone who does not hold the lock: the last reference to an
  // inode without links starts to free it, and would block if it were locked.
  function PutNext(s: State, t: nat, i: nat, n: nat): Option<State>
    requires i < |s.slots| && n < |s.home| && t in s.toks
  {
    if s.slots[i].holder == t then None
    else if !MayFree(s.slots[i]) then Some(Detach(s, t, i, n))
    else if s.slots[i].holder != -1 then None
    else Some(WithStage(s, t, Locked).(slots := s.slots[i := s.slots[i].(holder := t)]))
  }
}
