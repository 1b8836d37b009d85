// One live entry per inode number, and no mix-up of generations.
module ItableProof {
  import opened Common
  import opened Itable

  predicate OnSlot(slots: seq<Slot>, k: Tok, t: nat) {
    k.slot < |slots| && t in slots[k.slot].toks && slots[k.slot].inum == k.inum
  }

  predicate Current(disk: seq<Dinode>, k: Tok) {
    k.inum < |disk| && disk[k.inum].kind != 0 && disk[k.inum].gen == k.gen
  }

  // The generation of the reference has been freed on disk, and the number may be in use again.
  predicate Freed(disk: seq<Dinode>, k: Tok) {
    k.inum < |disk| && (disk[k.inum].gen > k.gen || (disk[k.inum].gen == k.gen && disk[k.inum].kind == 0))
  }

  ghost predicate TokOk(slots: seq<Slot>, disk: seq<Dinode>, links: seq<nat>, pending: seq<int>, toks: map<nat, Tok>,
      t: nat)
    requires |disk| == |links| == |pending|
  {
    t in toks ==>
      var k := toks[t];
      k.inum < |disk| &&
      match k.stage
      case Pending => Current(disk, k) && links[k.inum] == 0 && pending[k.inum] == t
      case Using =>
        && OnSlot(slots, k, t) && Current(disk, k) && pending[k.inum] == -1
        && (slots[k.slot].holder == t ==> slots[k.slot].valid)
      case Locked =>
        && OnSlot(slots, k, t) && Current(disk, k) && pending[k.inum] == -1 && links[k.inum] == 0
        && slots[k.slot].toks == {t} && slots[k.slot].holder == t && slots[k.slot].valid
      case Written => OnSlot(slots, k, t) && Freed(disk, k) && slots[k.slot].holder == t
      case Invalid => OnSlot(slots, k, t) && Freed(disk, k) && slots[k.slot].holder == t && !slots[k.slot].valid
      case Unlocked => OnSlot(slots, k, t) && Freed(disk, k)
  }

  // The in-memory copy is what is on disk, or iput() has just freed the inode
  // and is about to mark the copy as not valid.
  predicate CopyOk(x: Slot, disk: seq<Dinode>, toks: map<nat, Tok>) {
    x.inum < |disk| &&
    ((x.copy == disk[x.inum] && disk[x.inum].kind != 0)
     || (x.holder >= 0 && x.holder in toks && toks[x.holder].stage.Written?))
  }

  ghost predicate SlotOk(slots: seq<Slot>, disk: seq<Dinode>, toks: map<nat, Tok>, home: seq<int>, i: nat) {
    i < |slots| ==>
      var x := slots[i];
      && x.ref == |x.toks| && (x.holder == -1 || (x.holder >= 0 && x.holder in x.toks))
      && (forall u {:trigger u in x.toks} :: u in x.toks ==> u in toks && toks[u].slot == i && !toks[u].stage.Pending?)
      && (x.holder >= 0 ==> x.holder in toks && !toks[x.holder].stage.Unlocked?)
      && (x.ref > 0 ==> x.inum < |home| && home[x.inum] == i)
      && (x.ref > 0 && x.valid ==> CopyOk(x, disk, toks))
  }

  predicate HomeOk(slots: seq<Slot>, home: seq<int>, n: nat) {
    n < |home| ==> home[n] == -1 || (0 <= home[n] < |slots| && slots[home[n]].inum == n && slots[home[n]].ref > 0)
  }

  predicate IsPending(toks: map<nat, Tok>, t: nat, n: nat) {
    t in toks && toks[t].stage.Pending? && toks[t].inum == n
  }

  predicate InumOk(disk: seq<Dinode>, links: seq<nat>, toks: map<nat, Tok>, pending: seq<int>, n: nat)
    requires |disk| == |links| == |pending|
  {
    n < |disk| ==>
      && (disk[n].kind == 0 ==> links[n] == 0) && (disk[n].kind != 0 ==> disk[n].nlink == links[n])
      && (pending[n] != -1 ==> pending[n] >= 0 && IsPending(toks, pending[n], n))
  }

  ghost predicate Inv(s: State) {
    && Shape(s)
    && (forall t {:trigger TokOk(s.slots, s.disk, s.links, s.pending, s.toks, t)} ::
          TokOk(s.slots, s.disk, s.links, s.pending, s.toks, t))
    && (forall i {:trigger SlotOk(s.slots, s.disk, s.toks, s.home, i)} :: SlotOk(s.slots, s.disk, s.toks, s.home, i))
    && (forall n {:trigger HomeOk(s.slots, s.home, n)} :: HomeOk(s.slots, s.home, n))
    && (forall n {:trigger InumOk(s.disk, s.links, s.toks, s.pending, n)} :: InumOk(s.disk, s.links, s.toks, s.pending, n))
  }

  lemma InvFacts(s: State, t: nat, i: nat, n: nat)
    requires Inv(s)
    ensures TokOk(s.slots, s.disk, s.links, s.pending, s.toks, t)
    ensures SlotOk(s.slots, s.disk, s.toks, s.home, i)
    ensures HomeOk(s.slots, s.home, n) && InumOk(s.disk, s.links, s.toks, s.pending, n)
  {
  }

  // ------------------------------------------------------------- one more user

  // iget() finds the live entry if there is one.
  lemma ChoiceIs(s: State, n: nat)
    requires Inv(s) && n < |s.disk|
    ensures s.home[n] >= 0 ==> Choice(s.slots, n) == s.home[n]
    ensures s.home[n] == -1 && Choice(s.slots, n) < |s.slots| ==> s.slots[Choice(s.slots, n)].ref == 0
  {
    InvFacts(s, 0, 0, n);
    var r := Find(s.slots, n, 0);
    InvFacts(s, 0, r, n);
  }

  // Another reference t to the current generation of inode n can be made in slot i:
  // t is new, or it is the one that ialloc() is about to make.
  ghost predicate CanAttach(s: State, i: nat, n: nat, t: nat) {
    && Inv(s) && n < |s.disk| && i < |s.slots| && s.disk[n].kind != 0
    && (if s.home[n] >= 0 then i == s.home[n] else s.slots[i].ref == 0)
    && (if t in s.toks then s.toks[t].stage.Pending? && s.toks[t].inum == n && s.pending[n] == t else s.pending[n] == -1)
    && (forall u {:trigger u in s.toks} :: u in s.toks && s.toks[u].stage.Locked? ==> s.toks[u].inum != n)
  }

  function Attached(s: State, i: nat, n: nat, t: nat): State
    requires i < |s.slots| && n < |s.disk| == |s.home| == |s.pending|
  {
    AttachAt(s.(pending := s.pending[n := -1]), i, n, t)
  }

  lemma AttachInv(s: State, i: nat, n: nat, t: nat)
    requires CanAttach(s, i, n, t)
    ensures Inv(Attached(s, i, n, t))
  {
    var s' := Attached(s, i, n, t);
    forall u ensures TokOk(s'.slots, s'.disk, s'.links, s'.pending, s'.toks, u) {
      AttachTok(s, i, n, t, u);
    }
    forall j ensures SlotOk(s'.slots, s'.disk, s'.toks, s'.home, j) {
      AttachSlot(s, i, n, t, j);
    }
    forall m ensures HomeOk(s'.slots, s'.home, m) && InumOk(s'.disk, s'.links, s'.toks, s'.pending, m) {
      InvFacts(s, t, i, m);
    }
  }

  lemma AttachTok(s: State, i: nat, n: nat, t: nat, u: nat)
    requires CanAttach(s, i, n, t)
    ensures var s' := Attached(s, i, n, t); TokOk(s'.slots, s'.disk, s'.links, s'.pending, s'.toks, u)
  {
    InvFacts(s, u, i, n);
    InvFacts(s, t, i, n);
  }

  lemma AttachSlot(s: State, i: nat, n: nat, t: nat, j: nat)
    requires CanAttach(s, i, n, t)
    ensures var s' := Attached(s, i, n, t); SlotOk(s'.slots, s'.disk, s'.toks, s'.home, j)
  {
    InvFacts(s, t, j, n);
    InvFacts(s, t, i, n);
    assert j < |s.slots| ==> t !in s.slots[j].toks;
  }

  // ------------------------------------------------------------- one user less

  lemma DetachInv(s: State, t: nat)
    requires Inv(s) && (At(s, t, Using) || At(s, t, Unlocked)) && s.slots[s.toks[t].slot].holder != t
    ensures Inv(Detach(s, t, s.toks[t].slot, s.toks[t].inum))
  {
    var i, n := s.toks[t].slot, s.toks[t].inum;
    var s' := Detach(s, t, i, n);
    forall u ensures TokOk(s'.slots, s'.disk, s'.links, s'.pending, s'.toks, u) {
      InvFacts(s, u, i, n);
    }
    forall j ensures SlotOk(s'.slots, s'.disk, s'.toks, s'.home, j) {
      DetachSlot(s, t, j);
    }
    InvFacts(s, t, i, n);
    forall m ensures HomeOk(s'.slots, s'.home, m) && InumOk(s'.disk, s'.links, s'.toks, s'.pending, m) {
      InvFacts(s, t, i, m);
    }
  }

  lemma DetachSlot(s: State, t: nat, j: nat)
    requires Inv(s) && (At(s, t, Using) || At(s, t, Unlocked)) && s.slots[s.toks[t].slot].holder != t
    ensures var s' := Detach(s, t, s.toks[t].slot, s.toks[t].inum); SlotOk(s'.slots, s'.disk, s'.toks, s'.home, j)
  {
    var i, n := s.toks[t].slot, s.toks[t].inum;
    InvFacts(s, t, i, n);
    InvFacts(s, t, j, n);
  }

  // ------------------------------------------------------------------ locking

  // Only slot i changed, in holder, valid and copy.
  lemma SlotInv(s: State, i: nat, x: Slot)
    requires Inv(s) && i < |s.slots| && x.ref == s.slots[i].ref && x.inum == s.slots[i].inum
    requires x.toks == s.slots[i].toks
    requires x.holder == -1
          || (x.holder >= 0 && x.holder in x.toks && x.holder in s.toks && !s.toks[x.holder].stage.Unlocked?)
    requires x.ref > 0 && x.valid ==> CopyOk(x, s.disk, s.toks)
    requires x.holder >= 0 && s.toks[x.holder].stage.Using? ==> x.valid
    requires forall u {:trigger u in s.toks} ::
      u in x.toks && u in s.toks && (s.toks[u].stage.Locked? || s.toks[u].stage.Written? || s.toks[u].stage.Invalid?) ==>
      x.holder == u && (s.toks[u].stage.Locked? ==> x.valid) && (s.toks[u].stage.Invalid? ==> !x.valid)
    ensures Inv(s.(slots := s.slots[i := x]))
  {
    var s' := s.(slots := s.slots[i := x]);
    forall u ensures TokOk(s'.slots, s'.disk, s'.links, s'.pending, s'.toks, u) {
      InvFacts(s, u, i, 0);
    }
    forall j ensures SlotOk(s'.slots, s'.disk, s'.toks, s'.home, j) {
      InvFacts(s, 0, j, 0);
    }
    forall m ensures HomeOk(s'.slots, s'.home, m) && InumOk(s'.disk, s'.links, s'.toks, s'.pending, m) {
      InvFacts(s, 0, i, m);
    }
  }

  // Someone in the middle of freeing holds the lock.
  lemma FreeingHolds(s: State, i: nat, u: nat)
    requires Inv(s) && i < |s.slots| && u in s.slots[i].toks && u in s.toks
    ensures s.toks[u].stage.Locked? || s.toks[u].stage.Written? || s.toks[u].stage.Invalid? ==> s.slots[i].holder == u
  {
    InvFacts(s, u, i, 0);
  }

  lemma LockInv(s: State, t: nat)
    requires Inv(s) && At(s, t, Using) && LockNext(s, t, s.toks[t].slot, s.toks[t].inum).Some?
    ensures Inv(LockNext(s, t, s.toks[t].slot, s.toks[t].inum).value)
    ensures var x := LockNext(s, t, s.toks[t].slot, s.toks[t].inum).value.slots[s.toks[t].slot];
            x.copy == s.disk[s.toks[t].inum] && x.copy.gen == s.toks[t].gen && x.copy.kind != 0
  {
    var i, n := s.toks[t].slot, s.toks[t].inum;
    InvFacts(s, t, i, n);
    var x := LockNext(s, t, i, n).value.slots[i];
    forall u | u in x.toks && u in s.toks
      ensures !s.toks[u].stage.Locked? && !s.toks[u].stage.Written? && !s.toks[u].stage.Invalid?
    {
      FreeingHolds(s, i, u);
    }
    SlotInv(s, i, x);
  }

  lemma UnlockInv(s: State, t: nat)
    requires Inv(s) && At(s, t, Using) && s.slots[s.toks[t].slot].holder == t
    ensures Inv(s.(slots := s.slots[s.toks[t].slot := s.slots[s.toks[t].slot].(holder := -1)]))
  {
    var i, n := s.toks[t].slot, s.toks[t].inum;
    InvFacts(s, t, i, n);
    var x := s.slots[i].(holder := -1);
    forall u | u in x.toks && u in s.toks
      ensures !s.toks[u].stage.Locked? && !s.toks[u].stage.Written? && !s.toks[u].stage.Invalid?
    {
      FreeingHolds(s, i, u);
    }
    SlotInv(s, i, x);
  }

  // A user of an inode shares it with nobody who is freeing it or has yet to get it.
  lemma NoOther(s: State, t: nat, u: nat)
    requires Inv(s) && At(s, t, Using) && u in s.toks && s.toks[u].inum == s.toks[t].inum
    ensures !s.toks[u].stage.Locked? && !s.toks[u].stage.Pending?
  {
    InvFacts(s, t, s.toks[t].slot, s.toks[t].inum);
    InvFacts(s, u, s.toks[u].slot, s.toks[u].inum);
  }

  lemma LinkInv(s: State, t: nat, d: int)
    requires Inv(s) && At(s, t, Using) && LinkNext(s, t, s.toks[t].slot, s.toks[t].inum, d).Some?
    ensures Inv(LinkNext(s, t, s.toks[t].slot, s.toks[t].inum, d).value)
  {
    var i, n := s.toks[t].slot, s.toks[t].inum;
    var s' := LinkNext(s, t, i, n, d).value;
    InvFacts(s, t, i, n);
    forall u ensures TokOk(s'.slots, s'.disk, s'.links, s'.pending, s'.toks, u) {
      InvFacts(s, u, i, n);
      if u in s.toks && s.toks[u].inum == n {
        NoOther(s, t, u);
      }
    }
    forall j ensures SlotOk(s'.slots, s'.disk, s'.toks, s'.home, j) {
      InvFacts(s, t, j, n);
    }
    forall m ensures HomeOk(s'.slots, s'.home, m) && InumOk(s'.disk, s'.links, s'.toks, s'.pending, m) {
      InvFacts(s, t, i, m);
    }
  }

  // ------------------------------------------------------------------ freeing

  lemma OneMember(a: set<nat>, t: nat)
    requires t in a && |a| == 1
    ensures a == {t}
  {
    assert |a - {t}| == 0;
  }

  // iput() of the last reference to an inode without links finds it unlocked.
  lemma LastUnlocked(s: State, t: nat)
    requires Inv(s) && At(s, t, Using) && MayFree(s.slots[s.toks[t].slot]) && s.slots[s.toks[t].slot].holder != t
    ensures s.slots[s.toks[t].slot].holder == -1 && s.slots[s.toks[t].slot].toks == {t} && s.links[s.toks[t].inum] == 0
  {
    var i, n := s.toks[t].slot, s.toks[t].inum;
    InvFacts(s, t, i, n);
    OneMember(s.slots[i].toks, t);
  }

  lemma FreeStartInv(s: State, t: nat)
    requires Inv(s) && At(s, t, Using) && MayFree(s.slots[s.toks[t].slot]) && s.slots[s.toks[t].slot].holder == -1
    ensures var i := s.toks[t].slot; Inv(WithStage(s, t, Locked).(slots := s.slots[i := s.slots[i].(holder := t)]))
  {
    var i, n := s.toks[t].slot, s.toks[t].inum;
    var s' := WithStage(s, t, Locked).(slots := s.slots[i := s.slots[i].(holder := t)]);
    LastUnlocked(s, t);
    InvFacts(s, t, i, n);
    forall u ensures TokOk(s'.slots, s'.disk, s'.links, s'.pending, s'.toks, u) {
      InvFacts(s, u, i, n);
    }
    forall j ensures SlotOk(s'.slots, s'.disk, s'.toks, s'.home, j) {
      InvFacts(s, t, j, n);
    }
    forall m ensures HomeOk(s'.slots, s'.home, m) && InumOk(s'.disk, s'.links, s'.toks, s'.pending, m) {
      InvFacts(s, t, i, m);
    }
  }

  // While iput() frees inode n, nobody else has a reference to it or is about to.
  lemma FreeingAlone(s: State, t: nat, u: nat)
    requires Inv(s) && At(s, t, Locked) && u in s.toks && s.toks[u].inum == s.toks[t].inum
    ensures u == t
  {
    InvFacts(s, t, s.toks[t].slot, s.toks[t].inum);
    InvFacts(s, u, s.toks[u].slot, s.toks[u].inum);
  }

  lemma FreeWriteInv(s: State, t: nat)
    requires Inv(s) && At(s, t, Locked)
    ensures var n := s.toks[t].inum; Inv(WithStage(s, t, Written).(disk := s.disk[n := s.disk[n].(kind := 0, nlink := 0)]))
  {
    var i, n := s.toks[t].slot, s.toks[t].inum;
    var s' := WithStage(s, t, Written).(disk := s.disk[n := s.disk[n].(kind := 0, nlink := 0)]);
    InvFacts(s, t, i, n);
    forall u ensures TokOk(s'.slots, s'.disk, s'.links, s'.pending, s'.toks, u) {
      InvFacts(s, u, i, n);
      if u in s.toks && s.toks[u].inum == n {
        FreeingAlone(s, t, u);
      }
    }
    forall j ensures SlotOk(s'.slots, s'.disk, s'.toks, s'.home, j) {
      InvFacts(s, t, j, n);
    }
    forall m ensures HomeOk(s'.slots, s'.home, m) && InumOk(s'.disk, s'.links, s'.toks, s'.pending, m) {
      InvFacts(s, t, i, m);
    }
  }

  lemma FreeInvalidInv(s: State, t: nat)
    requires Inv(s) && At(s, t, Written)
    ensures var i := s.toks[t].slot; Inv(WithStage(s, t, Invalid).(slots := s.slots[i := s.slots[i].(valid := false)]))
  {
    var i, n := s.toks[t].slot, s.toks[t].inum;
    var s' := WithStage(s, t, Invalid).(slots := s.slots[i := s.slots[i].(valid := false)]);
    InvFacts(s, t, i, n);
    forall u ensures TokOk(s'.slots, s'.disk, s'.links, s'.pending, s'.toks, u) {
      InvFacts(s, u, i, n);
    }
    forall j ensures SlotOk(s'.slots, s'.disk, s'.toks, s'.home, j) {
      InvFacts(s, t, j, n);
    }
    forall m ensures HomeOk(s'.slots, s'.home, m) && InumOk(s'.disk, s'.links, s'.toks, s'.pending, m) {
      InvFacts(s, t, i, m);
    }
  }

  lemma FreeUnlockInv(s: State, t: nat)
    requires Inv(s) && At(s, t, Invalid)
    ensures var i := s.toks[t].slot; Inv(WithStage(s, t, Unlocked).(slots := s.slots[i := s.slots[i].(holder := -1)]))
  {
    var i, n := s.toks[t].slot, s.toks[t].inum;
    var s' := WithStage(s, t, Unlocked).(slots := s.slots[i := s.slots[i].(holder := -1)]);
    InvFacts(s, t, i, n);
    forall u ensures TokOk(s'.slots, s'.disk, s'.links, s'.pending, s'.toks, u) {
      InvFacts(s, u, i, n);
    }
    forall j ensures SlotOk(s'.slots, s'.disk, s'.toks, s'.home, j) {
      InvFacts(s, t, j, n);
    }
    forall m ensures HomeOk(s'.slots, s'.home, m) && InumOk(s'.disk, s'.links, s'.toks, s'.pending, m) {
      InvFacts(s, t, i, m);
    }
  }

  lemma AllocDiskInv(s: State, t: nat, n: nat, kind: nat)
    requires Inv(s) && t !in s.toks && n < |s.disk| && s.disk[n].kind == 0 && kind > 0
    ensures Inv(Next(s, AllocDisk(t, n, kind)).value)
  {
    var s' := Next(s, AllocDisk(t, n, kind)).value;
    InvFacts(s, t, 0, n);
    forall u ensures TokOk(s'.slots, s'.disk, s'.links, s'.pending, s'.toks, u) {
      InvFacts(s, u, 0, n);
    }
    forall j ensures SlotOk(s'.slots, s'.disk, s'.toks, s'.home, j) {
      InvFacts(s, t, j, n);
    }
    forall m ensures HomeOk(s'.slots, s'.home, m) && InumOk(s'.disk, s'.links, s'.toks, s'.pending, m) {
      InvFacts(s, t, 0, m);
    }
  }

  // ------------------------------------------------------------ every run

  lemma GetInv(s: State, t: nat, n: nat)
    requires Inv(s) && t !in s.toks && n < |s.disk| && s.links[n] > 0 && Attach(s, n, t).Some?
    ensures Inv(Attach(s, n, t).value)
  {
    ChoiceIs(s, n);
    InvFacts(s, 0, 0, n);
    if s.pending[n] != -1 {
      InvFacts(s, s.pending[n], 0, n);
    }
    forall u | u in s.toks && s.toks[u].stage.Locked? ensures s.toks[u].inum != n {
      InvFacts(s, u, 0, n);
    }
    assert s.pending[n := -1] == s.pending;
    AttachInv(s, Choice(s.slots, n), n, t);
  }

  lemma DupInv(s: State, t: nat, u: nat)
    requires Inv(s) && At(s, t, Using) && u !in s.toks
    ensures Inv(AttachAt(s, s.toks[t].slot, s.toks[t].inum, u))
  {
    var i, n := s.toks[t].slot, s.toks[t].inum;
    InvFacts(s, t, i, n);
    forall v | v in s.toks && s.toks[v].stage.Locked? ensures s.toks[v].inum != n {
      if s.toks[v].inum == n {
        NoOther(s, t, v);
      }
    }
    assert s.pending[n := -1] == s.pending;
    AttachInv(s, i, n, u);
  }

  lemma InvStep(s: State, step: Step)
    requires Inv(s) && Next(s, step).Some?
    ensures Inv(Next(s, step).value)
  {
    match step
    case Iget(t, n) => GetInv(s, t, n);
    case Idup(t, u) => DupInv(s, t, u);
    case Ilock(t) => LockInv(s, t);
    case Iunlock(t) => UnlockInv(s, t);
    case Link(t) => LinkInv(s, t, 1);
    case Unlink(t) => LinkInv(s, t, -1);
    case Iput(t) =>
      if MayFree(s.slots[s.toks[t].slot]) {
        FreeStartInv(s, t);
      } else {
        DetachInv(s, t);
      }
    case FreeWrite(t) => FreeWriteInv(s, t);
    case FreeInvalid(t) => FreeInvalidInv(s, t);
    case FreeUnlock(t) => FreeUnlockInv(s, t);
    case FreeDrop(t) =>
      InvFacts(s, t, s.toks[t].slot, s.toks[t].inum);
      DetachInv(s, t);
    case AllocDisk(t, n, kind) => AllocDiskInv(s, t, n, kind);
    case AllocGet(t) => AllocGetInv(s, t);
  }

  lemma AllocGetInv(s: State, t: nat)
    requires Inv(s) && At(s, t, Pending) && Choice(s.slots, s.toks[t].inum) < |s.slots|
    ensures Inv(Attached(s, Choice(s.slots, s.toks[t].inum), s.toks[t].inum, t))
  {
    var n := s.toks[t].inum;
    InvFacts(s, t, 0, n);
    ChoiceIs(s, n);
    forall u | u in s.toks && s.toks[u].stage.Locked? ensures s.toks[u].inum != n {
      InvFacts(s, u, 0, n);
    }
    AttachInv(s, Choice(s.slots, n), n, t);
  }

  // No inode is in memory, and the link counts on disk are right.
  ghost predicate Init(s: State) {
    && Shape(s) && s.toks == map[]
    && (forall i :: 0 <= i < |s.slots| ==> s.slots[i].ref == 0 && s.slots[i].toks == {} && s.slots[i].holder == -1)
    && (forall n :: 0 <= n < |s.disk| ==> s.home[n] == -1 && s.pending[n] == -1)
    && (forall n :: 0 <= n < |s.disk| ==> s.links[n] == if s.disk[n].kind == 0 then 0 else s.disk[n].nlink)
  }

  ghost predicate Reaches(s: State, steps: seq<Step>, s': State)
    requires Shape(s)
    decreases |steps|
  {
    Shape(s') &&
    if steps == [] then s' == s
    else Next(s, steps[0]).Some? && Shape(Next(s, steps[0]).value) && Reaches(Next(s, steps[0]).value, steps[1..], s')
  }

  lemma {:induction false} InvRun(s: State, steps: seq<Step>, s': State)
    requires Inv(s) && Reaches(s, steps, s')
    ensures Inv(s')
    decreases |steps|
  {
    if steps != [] {
      InvStep(s, steps[0]);
      InvRun(Next(s, steps[0]).value, steps[1..], s');
    }
  }

  lemma InvInit(s: State)
    requires Init(s)
    ensures Inv(s)
  {
  }

  // --------------------------------------------------------- the guarantees

  // At most one entry in use per inode number.
  lemma OneEntryPerInode(s0: State, steps: seq<Step>, s: State, i: nat, j: nat)
    requires Init(s0) && Reaches(s0, steps, s) && i < |s.slots| && j < |s.slots|
    requires s.slots[i].ref > 0 && s.slots[j].ref > 0 && s.slots[i].inum == s.slots[j].inum
    ensures i == j
  {
    InvInit(s0);
    InvRun(s0, steps, s);
    InvFacts(s, 0, i, 0);
    InvFacts(s, 0, j, 0);
  }

  // ilock() leaves the caller with the inode on disk, of the very generation its
  // reference was made for, and never finds one without a type.
  lemma IlockLoadsFresh(s0: State, steps: seq<Step>, s: State, t: nat)
    requires Init(s0) && Reaches(s0, steps, s) && Next(s, Ilock(t)).Some?
    ensures var s' := Next(s, Ilock(t)).value;
            var k := s.toks[t];
            && s'.slots[k.slot].inum == k.inum && s'.slots[k.slot].copy == s.disk[k.inum] == s'.disk[k.inum]
            && s.disk[k.inum].gen == k.gen && s.disk[k.inum].kind != 0
  {
    InvInit(s0);
    InvRun(s0, steps, s);
    LockInv(s, t);
    InvFacts(s, t, s.toks[t].slot, s.toks[t].inum);
  }

  // When iput() writes a freed inode, the inode is of the generation of its own
  // reference, and nobody else has a reference to it; it writes nothing after that.
  lemma IputFreesItsOwn(s0: State, steps: seq<Step>, s: State, t: nat, u: nat)
    requires Init(s0) && Reaches(s0, steps, s) && Next(s, FreeWrite(t)).Some?
    ensures s.disk[s.toks[t].inum].gen == s.toks[t].gen && s.links[s.toks[t].inum] == 0
    ensures u in s.toks && s.toks[u].inum == s.toks[t].inum ==> u == t
  {
    InvInit(s0);
    InvRun(s0, steps, s);
    InvFacts(s, t, s.toks[t].slot, s.toks[t].inum);
    if u in s.toks && s.toks[u].inum == s.toks[t].inum {
      FreeingAlone(s, t, u);
    }
  }

  // The acquiresleep() in iput() never waits, so holding itable.lock there is harmless.
  lemma IputNeverWaits(s0: State, steps: seq<Step>, s: State, t: nat)
    requires Init(s0) && Reaches(s0, steps, s) && At(s, t, Using) && s.slots[s.toks[t].slot].holder != t
    ensures Next(s, Iput(t)).Some?
  {
    InvInit(s0);
    InvRun(s0, steps, s);
    if MayFree(s.slots[s.toks[t].slot]) {
      LastUnlocked(s, t);
    }
  }

  // --------------------------------------------------- the type and the links

  // Reference t has been promised or is in use.
  predicate Holds(s: State, t: nat) {
    t in s.toks && (s.toks[t].stage.Pending? || s.toks[t].stage.Using?)
  }

  // It is so all the way.
  ghost predicate HoldsOn(s: State, steps: seq<Step>, s': State, t: nat)
    requires Shape(s) && Reaches(s, steps, s')
    decreases |steps|
  {
    Holds(s, t) && (steps != [] ==> HoldsOn(Next(s, steps[0]).value, steps[1..], s', t))
  }

  function Delta(s: State, step: Step, n: nat): int {
    match step
    case Link(u) => if u in s.toks && s.toks[u].inum == n then 1 else 0
    case Unlink(u) => if u in s.toks && s.toks[u].inum == n then -1 else 0
    case _ => 0
  }

  // The directory entries for n that the steps make, minus those that they remove.
  ghost function Made(s: State, steps: seq<Step>, s': State, n: nat): int
    requires Shape(s) && Reaches(s, steps, s')
    decreases |steps|
  {
    if steps == [] then 0 else Delta(s, steps[0], n) + Made(Next(s, steps[0]).value, steps[1..], s', n)
  }

  // While somebody holds a reference to inode n, nothing but link() and unlink() changes it.
  lemma TypeStep(s: State, step: Step, t: nat)
    requires Inv(s) && Next(s, step).Some? && Holds(s, t) && Holds(Next(s, step).value, t)
    ensures var s', n := Next(s, step).value, s.toks[t].inum;
            && n < |s.disk| == |s'.disk| && s'.toks[t].inum == n
            && s'.disk[n] == s.disk[n].(nlink := s'.disk[n].nlink)
            && s'.disk[n].nlink == s.disk[n].nlink + Delta(s, step, n)
  {
    InvFacts(s, t, s.toks[t].slot, s.toks[t].inum);
    match step
    case Link(u) => InvFacts(s, u, s.toks[u].slot, s.toks[u].inum);
    case Unlink(u) => InvFacts(s, u, s.toks[u].slot, s.toks[u].inum);
    case FreeWrite(u) =>
      if s.toks[u].inum == s.toks[t].inum {
        FreeingAlone(s, u, t);
      }
    case _ =>
  }

  lemma {:induction false} TypeRun(s: State, steps: seq<Step>, s': State, t: nat)
    requires Inv(s) && Reaches(s, steps, s') && HoldsOn(s, steps, s', t)
    ensures var n := s.toks[t].inum;
            && n < |s.disk| == |s'.disk| && Inv(s') && Holds(s', t) && s'.toks[t].inum == n
            && s'.disk[n].kind == s.disk[n].kind && s'.disk[n].nlink == s.disk[n].nlink + Made(s, steps, s', n)
    decreases |steps|
  {
    InvFacts(s, t, 0, 0);
    if steps != [] {
      InvStep(s, steps[0]);
      TypeStep(s, steps[0], t);
      TypeRun(Next(s, steps[0]).value, steps[1..], s', t);
    }
  }

  // ilock() through the reference that ialloc() made gives the inode the type that was asked
  // for, and as many links as have been made since.
  lemma TypeAsked(s0: State, before: seq<Step>, s: State, t: nat, n: nat, kind: nat, s1: State, after: seq<Step>,
      s2: State)
    requires Init(s0) && Reaches(s0, before, s) && Next(s, AllocDisk(t, n, kind)) == Some(s1)
    requires Shape(s1) && Reaches(s1, after, s2) && HoldsOn(s1, after, s2, t) && Next(s2, Ilock(t)).Some?
    ensures var x := Next(s2, Ilock(t)).value.slots[s2.toks[t].slot];
            x.holder == t && x.inum == n && x.copy.kind == kind && x.copy.nlink == Made(s1, after, s2, n)
  {
    InvInit(s0);
    InvRun(s0, before, s);
    InvStep(s, AllocDisk(t, n, kind));
    TypeRun(s1, after, s2, t);
    LockInv(s2, t);
    InvFacts(s2, t, s2.toks[t].slot, n);
  }

  // Whoever has come by reference t to inode n, and still holds it, locks inode n with it.
  lemma LocksIts(s: State, after: seq<Step>, s': State, t: nat, n: nat)
    requires Inv(s) && Reaches(s, after, s') && HoldsOn(s, after, s', t) && s.toks[t].inum == n
    requires Next(s', Ilock(t)).Some?
    ensures n < |s'.disk|
    ensures var x := Next(s', Ilock(t)).value.slots[s'.toks[t].slot];
            x.holder == t && x.inum == n && x.copy == s'.disk[n]
  {
    TypeRun(s, after, s', t);
    LockInv(s', t);
    InvFacts(s', t, s'.toks[t].slot, n);
  }

  // iget() gives a reference to the inode that was asked for,
  lemma IgetNamed(s0: State, before: seq<Step>, s: State, t: nat, n: nat, s1: State, after: seq<Step>, s2: State)
    requires Init(s0) && Reaches(s0, before, s) && Next(s, Iget(t, n)) == Some(s1)
    requires Shape(s1) && Reaches(s1, after, s2) && HoldsOn(s1, after, s2, t) && Next(s2, Ilock(t)).Some?
    ensures n < |s2.disk|
    ensures var x := Next(s2, Ilock(t)).value.slots[s2.toks[t].slot];
            x.holder == t && x.inum == n && x.copy == s2.disk[n]
  {
    InvInit(s0);
    InvRun(s0, before, s);
    InvStep(s, Iget(t, n));
    LocksIts(s1, after, s2, t, n);
  }

  // and idup() one to the same inode.
  lemma IdupSame(s0: State, before: seq<Step>, s: State, t: nat, u: nat, s1: State, after: seq<Step>, s2: State)
    requires Init(s0) && Reaches(s0, before, s) && Next(s, Idup(t, u)) == Some(s1)
    requires Shape(s1) && Reaches(s1, after, s2) && HoldsOn(s1, after, s2, u) && Next(s2, Ilock(u)).Some?
    ensures s.toks[t].inum < |s2.disk|
    ensures var x := Next(s2, Ilock(u)).value.slots[s2.toks[u].slot];
            x.holder == u && x.inum == s.toks[t].inum && x.copy == s2.disk[s.toks[t].inum]
  {
    InvInit(s0);
    InvRun(s0, before, s);
    InvStep(s, Idup(t, u));
    LocksIts(s1, after, s2, u, s.toks[t].inum);
  }

  // ------------------------------------------------ inodes that nobody frees

  // Inode n is allocated and has no links, and nobody has a reference or is about to.
  predicate Orphan(s: State, n: nat)
    requires Shape(s)
  {
    n < |s.disk| && s.disk[n].kind > 0 && s.links[n] == 0 && s.home[n] == -1 && s.pending[n] == -1
  }

  // The step drops the last reference to inode n, allocated and without links, and does
  // not free it: it ends an iput() that freed an earlier generation of n, or the copy in
  // memory is not valid.
  predicate Abandons(s: State, step: Step, n: nat)
    requires Shape(s)
  {
    match step
    case FreeDrop(t) =>
      && At(s, t, Unlocked) && s.toks[t].inum == n && s.slots[s.toks[t].slot].ref == 1
      && s.disk[n].gen > s.toks[t].gen && s.disk[n].kind > 0 && s.links[n] == 0 && s.pending[n] == -1
    case Iput(t) =>
      && At(s, t, Using) && s.toks[t].inum == n && s.slots[s.toks[t].slot].ref == 1
      && s.links[n] == 0 && !s.slots[s.toks[t].slot].valid
    case _ => false
  }

  // Nobody finds an orphan again.
  lemma OrphanStays(s: State, step: Step, n: nat)
    requires Inv(s) && Next(s, step).Some? && Orphan(s, n)
    ensures Shape(Next(s, step).value) && Orphan(Next(s, step).value, n)
  {
    InvStep(s, step);
    match step
    case Iget(_, _) =>
    case AllocDisk(_, _, _) =>
    case Idup(t, _) => InvFacts(s, t, s.toks[t].slot, n);
    case Ilock(t) => InvFacts(s, t, s.toks[t].slot, n);
    case Iunlock(t) => InvFacts(s, t, s.toks[t].slot, n);
    case Link(t) => InvFacts(s, t, s.toks[t].slot, n);
    case Unlink(t) => InvFacts(s, t, s.toks[t].slot, n);
    case Iput(t) => InvFacts(s, t, s.toks[t].slot, n);
    case FreeWrite(t) => InvFacts(s, t, s.toks[t].slot, n);
    case FreeInvalid(t) => InvFacts(s, t, s.toks[t].slot, n);
    case FreeUnlock(t) => InvFacts(s, t, s.toks[t].slot, n);
    case FreeDrop(t) => InvFacts(s, t, s.toks[t].slot, n);
    case AllocGet(t) => InvFacts(s, t, 0, n);
  }

  lemma PutOrphan(s: State, t: nat, n: nat)
    requires Inv(s) && Next(s, Iput(t)).Some? && !Orphan(s, n)
    ensures Orphan(Next(s, Iput(t)).value, n) <==> Abandons(s, Iput(t), n)
  {
    var i := s.toks[t].slot;
    InvFacts(s, t, i, s.toks[t].inum);
    if s.slots[i].ref == 1 {
      OneMember(s.slots[i].toks, t);
    }
  }

  // Whoever locks, links or frees an inode keeps its reference.
  lemma UserKeeps(s: State, step: Step, t: nat, n: nat)
    requires Inv(s) && Next(s, step).Some? && !Orphan(s, n)
    requires step in {Ilock(t), Iunlock(t), Link(t), Unlink(t), FreeWrite(t), FreeInvalid(t), FreeUnlock(t)}
    ensures Shape(Next(s, step).value) && !Orphan(Next(s, step).value, n)
  {
    InvFacts(s, t, s.toks[t].slot, s.toks[t].inum);
  }

  lemma OrphanMade(s: State, step: Step, n: nat)
    requires Inv(s) && Next(s, step).Some? && !Orphan(s, n)
    ensures Shape(Next(s, step).value) && (Orphan(Next(s, step).value, n) <==> Abandons(s, step, n))
  {
    match step
    case Iget(_, _) =>
    case AllocDisk(_, _, _) =>
    case AllocGet(_) =>
    case Idup(_, _) =>
    case Ilock(t) => UserKeeps(s, step, t, n);
    case Iunlock(t) => UserKeeps(s, step, t, n);
    case Link(t) => UserKeeps(s, step, t, n);
    case Unlink(t) => UserKeeps(s, step, t, n);
    case Iput(t) => PutOrphan(s, t, n);
    case FreeWrite(t) => UserKeeps(s, step, t, n);
    case FreeInvalid(t) => UserKeeps(s, step, t, n);
    case FreeUnlock(t) => UserKeeps(s, step, t, n);
    case FreeDrop(t) => InvFacts(s, t, s.toks[t].slot, s.toks[t].inum);
  }

  ghost predicate EverAbandoned(s: State, steps: seq<Step>, s': State, n: nat)
    requires Shape(s) && Reaches(s, steps, s')
    decreases |steps|
  {
    steps != [] && (Abandons(s, steps[0], n) || EverAbandoned(Next(s, steps[0]).value, steps[1..], s', n))
  }

  lemma {:induction false} OrphanRun(s: State, steps: seq<Step>, s': State, n: nat)
    requires Inv(s) && Reaches(s, steps, s')
    ensures Orphan(s', n) <==> Orphan(s, n) || EverAbandoned(s, steps, s', n)
    decreases |steps|
  {
    if steps != [] {
      var s1 := Next(s, steps[0]).value;
      InvStep(s, steps[0]);
      if Orphan(s, n) {
        OrphanStays(s, steps[0], n);
      } else {
        OrphanMade(s, steps[0], n);
      }
      OrphanRun(s1, steps[1..], s', n);
    }
  }

  // An inode is left allocated, unreachable and never freed exactly when it was so at
  // boot or some step of the run abandoned it.
  lemma OrphansExactly(s0: State, steps: seq<Step>, s: State, n: nat)
    requires Init(s0) && Reaches(s0, steps, s)
    ensures Orphan(s, n) <==> Orphan(s0, n) || EverAbandoned(s0, steps, s, n)
  {
    InvInit(s0);
    OrphanRun(s0, steps, s, n);
  }

  // One such run, with one inode number and one entry in the table: reference 1 to a new
  // generation is dropped while the iput() of reference 0, which has freed the old one,
  // still counts.
  function Move(k: nat): Step {
    if k == 0 then AllocDisk(0, 0, 1) else if k == 1 then AllocGet(0) else if k == 2 then Ilock(0)
    else if k == 3 then Iunlock(0) else if k == 4 then Iput(0) else if k == 5 then FreeWrite(0)
    else if k == 6 then FreeInvalid(0) else if k == 7 then FreeUnlock(0) else if k == 8 then AllocDisk(1, 0, 1)
    else if k == 9 then AllocGet(1) else if k == 10 then Ilock(1) else if k == 11 then Iunlock(1)
    else if k == 12 then Iput(1) else FreeDrop(0)
  }

  function Scene(k: nat): State {
    var none, first, freed, second := Dinode(0, 0, 0), Dinode(1, 0, 1), Dinode(0, 0, 1), Dinode(1, 0, 2);
    if k == 0 then Just(Slot(0, 0, false, none, -1, {}), none, map[], -1, -1)
    else if k == 1 then Just(Slot(0, 0, false, none, -1, {}), first, map[0 := Tok(0, 0, Pending, 1)], -1, 0)
    else if k == 2 then Just(Slot(1, 0, false, none, -1, {0}), first, map[0 := Tok(0, 0, Using, 1)], 0, -1)
    else if k == 3 then Just(Slot(1, 0, true, first, 0, {0}), first, map[0 := Tok(0, 0, Using, 1)], 0, -1)
    else if k == 4 then Just(Slot(1, 0, true, first, -1, {0}), first, map[0 := Tok(0, 0, Using, 1)], 0, -1)
    else if k == 5 then Just(Slot(1, 0, true, first, 0, {0}), first, map[0 := Tok(0, 0, Locked, 1)], 0, -1)
    else if k == 6 then Just(Slot(1, 0, true, first, 0, {0}), freed, map[0 := Tok(0, 0, Written, 1)], 0, -1)
    else if k == 7 then Just(Slot(1, 0, false, first, 0, {0}), freed, map[0 := Tok(0, 0, Invalid, 1)], 0, -1)
    else if k == 8 then Just(Slot(1, 0, false, first, -1, {0}), freed, map[0 := Tok(0, 0, Unlocked, 1)], 0, -1)
    else if k == 9 then Just(Slot(1, 0, false, first, -1, {0}), second, Both(Pending), 0, 1)
    else if k == 10 then Just(Slot(2, 0, false, first, -1, {0, 1}), second, Both(Using), 0, -1)
    else if k == 11 then Just(Slot(2, 0, true, second, 1, {0, 1}), second, Both(Using), 0, -1)
    else if k == 12 then Just(Slot(2, 0, true, second, -1, {0, 1}), second, Both(Using), 0, -1)
    else if k == 13 then Just(Slot(1, 0, true, second, -1, {0}), second, map[0 := Tok(0, 0, Unlocked, 1)], 0, -1)
    else Just(Slot(0, 0, true, second, -1, {}), second, map[], -1, -1)
  }

  function Just(x: Slot, d: Dinode, toks: map<nat, Tok>, home: int, pending: int): State {
    State([x], [d], [0], toks, [home], [pending])
  }

  function Both(stage: Stage): map<nat, Tok> {
    map[0 := Tok(0, 0, Unlocked, 1), 1 := Tok(0, 0, stage, 2)]
  }

  // Equal part by part.
  lemma Agree(a: State, b: State)
    requires |a.slots| == |b.slots| == 1 && a.slots[0].toks == b.slots[0].toks && a.slots[0] == b.slots[0]
    requires a.disk == b.disk && a.links == b.links && a.toks == b.toks && a.home == b.home && a.pending == b.pending
    ensures a == b
  {
    assert a.slots == b.slots;
  }

  lemma FirstMoves(k: nat)
    requires k < 3
    ensures Next(Scene(k), Move(k)) == Some(Scene(k + 1))
  {
    Agree(Next(Scene(k), Move(k)).value, Scene(k + 1));
  }

  lemma FreeMoves(k: nat)
    requires 3 <= k < 6
    ensures Next(Scene(k), Move(k)) == Some(Scene(k + 1))
  {
    Agree(Next(Scene(k), Move(k)).value, Scene(k + 1));
  }

  lemma DropMoves(k: nat)
    requires 6 <= k < 9
    ensures Next(Scene(k), Move(k)) == Some(Scene(k + 1))
  {
    Agree(Next(Scene(k), Move(k)).value, Scene(k + 1));
  }

  lemma NewMoves(k: nat)
    requires 9 <= k < 12
    ensures Next(Scene(k), Move(k)) == Some(Scene(k + 1))
  {
    Agree(Next(Scene(k), Move(k)).value, Scene(k + 1));
  }

  lemma LastMoves(k: nat)
    requires 12 <= k < 14
    ensures Next(Scene(k), Move(k)) == Some(Scene(k + 1))
  {
    Agree(Next(Scene(k), Move(k)).value, Scene(k + 1));
  }

  lemma {:induction false} Moves(k: nat) returns (steps: seq<Step>)
    requires k <= 14
    ensures Reaches(Scene(k), steps, Scene(14))
    decreases 14 - k
  {
    steps := [];
    if k < 14 {
      if k < 3 {
        FirstMoves(k);
      } else if k < 6 {
        FreeMoves(k);
      } else if k < 9 {
        DropMoves(k);
      } else if k < 12 {
        NewMoves(k);
      } else {
        LastMoves(k);
      }
      var rest := Moves(k + 1);
      steps := [Move(k)] + rest;
      assert steps[1..] == rest;
    }
  }

  lemma FreshInodeLost() returns (s0: State, steps: seq<Step>, s: State)
    ensures Init(s0) && Reaches(s0, steps, s) && !Orphan(s0, 0) && Orphan(s, 0)
  {
    s0, s := Scene(0), Scene(14);
    steps := Moves(0);
  }

  // iget() as the loop that it is.
  method Scan(slots: seq<Slot>, n: nat) returns (r: nat)
    ensures r == Choice(slots, n)
  {
    var i, empty := 0, |slots|;
    while i < |slots|
      invariant i <= |slots| && Find(slots, n, i) == Find(slots, n, 0)
      invariant empty <= |slots|
      invariant (if empty < |slots| then empty == FindEmpty(slots, 0) else FindEmpty(slots, i) == FindEmpty(slots, 0))
    {
      if slots[i].ref > 0 && slots[i].inum == n {
        return i;
      }
      if empty == |slots| && slots[i].ref == 0 {
        empty := i;
      }
      i := i + 1;
    }
    return empty;
  }
}
