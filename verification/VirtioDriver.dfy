// The driver's descriptor bookkeeping as it runs, in place.
module VirtioDriver {
  import opened Common
  import opened VirtioSpec

  class Descriptors {
    const free: array<bool>
    const desc: array<Desc>

    ghost predicate Valid()
      reads this
    {
      free.Length == desc.Length == NUM
    }

    constructor ()
      ensures Valid() && fresh(free) && fresh(desc)
      ensures forall i :: 0 <= i < NUM ==> free[i]
    {
      free := new bool[NUM](_ => true);
      desc := new Desc[NUM](_ => Cleared);
    }

    // Finds a free descriptor and marks it taken.
    method AllocDesc() returns (i: int)
      requires Valid()
      modifies free
      ensures i == FirstFree(old(free[..]))
      ensures free[..] == if i >= 0 then old(free[..])[i := false] else old(free[..])
    {
      i := 0;
      while i < NUM
        invariant 0 <= i <= NUM
        invariant FirstFree(free[..]) == FirstFreeFrom(free[..], i)
        invariant free[..] == old(free[..])
      {
        if free[i] {
          free[i] := false;
          return i;
        }
        i := i + 1;
      }
      return -1;
    }

    // False stands for a panic.
    method FreeDesc(i: int) returns (ok: bool)
      requires Valid() && 0 <= i
      modifies free, desc
      ensures ok <==> i < NUM && !old(free[..])[i]
      ensures ok ==> free[..] == old(free[..])[i := true] && desc[..] == old(desc[..])[i := Cleared]
      ensures !ok ==> free[..] == old(free[..]) && desc[..] == old(desc[..])
    {
      if i >= NUM || free[i] {
        return false;
      }
      desc[i] := Cleared;
      free[i] := true;
      return true;
    }

    method FreeChain(start: nat) returns (ok: bool)
      requires Valid()
      modifies free, desc
      ensures ok <==> VirtioSpec.FreeChain(old(free[..]), old(desc[..]), start).Some?
      ensures ok ==> (free[..], desc[..]) == VirtioSpec.FreeChain(old(free[..]), old(desc[..]), start).value
    {
      var i: nat := start;
      while true
        invariant VirtioSpec.FreeChain(free[..], desc[..], i) ==
          VirtioSpec.FreeChain(old(free[..]), old(desc[..]), start)
        decreases Taken(free[..])
      {
        if i >= NUM {
          return false;
        }
        var flag, next := desc[i].chained, desc[i].next;
        ghost var before := free[..];
        ok := FreeDesc(i);
        if !ok {
          return;
        }
        TakenDrops(before, i);
        if flag {
          i := next;
        } else {
          return;
        }
      }
    }

    // Three descriptors, or none and the ones grabbed given back.
    method Alloc3Desc() returns (r: Option<(nat, nat, nat)>)
      requires Valid()
      modifies free, desc
      ensures r == Alloc3(old(free[..]))
      ensures r.Some? ==> free[..] == old(free[..])[r.value.0 := false][r.value.1 := false][r.value.2 := false]
      ensures r.None? ==> free[..] == old(free[..])
    {
      var x := AllocDesc();
      if x < 0 {
        return None;
      }
      var y := AllocDesc();
      if y < 0 {
        var _ := FreeDesc(x);
        return None;
      }
      var z := AllocDesc();
      if z < 0 {
        var _ := FreeDesc(x);
        var _ := FreeDesc(y);
        return None;
      }
      return Some((x, y, z));
    }
  }
}
