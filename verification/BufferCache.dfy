// bio.c's cache of buffers: the doubly linked list through prev and next,
// kept from the most to the least recently used buffer, and the reference
// counts, updated in place.
module BufferCache {
  import opened Common
  import opened BufferSpec
  import BufferProof

  // The node at position k of the circular list order, which closes at head.
  function At(order: seq<nat>, k: int, head: nat): nat {
    if 0 <= k < |order| then order[k] else head
  }

  // next and prev spell out exactly the list head, order[0], order[1], ...
  ghost predicate Linked(next: seq<nat>, prev: seq<nat>, order: seq<nat>, head: nat) {
    && |next| == |prev| == head + 1
    && Distinct(order)
    && (forall k :: 0 <= k < |order| ==> order[k] < head)
    && next[head] == At(order, 0, head)
    && prev[head] == At(order, |order| - 1, head)
    && (forall k {:trigger next[order[k]]} :: 0 <= k < |order| ==> next[order[k]] == At(order, k + 1, head))
    && (forall k {:trigger prev[order[k]]} :: 0 <= k < |order| ==> prev[order[k]] == At(order, k - 1, head))
  }

  lemma LinkFront(next: seq<nat>, prev: seq<nat>, order: seq<nat>, head: nat, b: nat)
    requires Linked(next, prev, order, head) && b < head && b !in order
    ensures next[head] <= head
    ensures Linked(next[b := next[head]][head := b], prev[b := head][next[head] := b], [b] + order, head)
  {
    var next', prev', order' := next[b := next[head]][head := b], prev[b := head][next[head] := b], [b] + order;
    FrontIsDistinct(order, head, b);
    forall k | 0 <= k < |order'|
      ensures next'[order'[k]] == At(order', k + 1, head) && prev'[order'[k]] == At(order', k - 1, head)
    {
      LinkFrontAt(next, prev, order, head, b, k);
    }
    assert prev'[head] == At(order', |order'| - 1, head);
  }

  lemma FrontIsDistinct(order: seq<nat>, head: nat, b: nat)
    requires Distinct(order) && b !in order && b < head
    requires forall k :: 0 <= k < |order| ==> order[k] < head
    ensures Distinct([b] + order) && forall k :: 0 <= k < |[b] + order| ==> ([b] + order)[k] < head
  {
    assert forall k :: 0 < k <= |order| ==> ([b] + order)[k] == order[k - 1];
  }

  lemma LinkFrontAt(next: seq<nat>, prev: seq<nat>, order: seq<nat>, head: nat, b: nat, k: nat)
    requires Linked(next, prev, order, head) && b < head && b !in order && k <= |order|
    ensures next[head] <= head && ([b] + order)[k] < head
    ensures next[b := next[head]][head := b][([b] + order)[k]] == At([b] + order, k + 1, head)
    ensures prev[b := head][next[head] := b][([b] + order)[k]] == At([b] + order, k - 1, head)
  {
    if k > 0 {
      assert ([b] + order)[k] == order[k - 1] != b;
      assert next[head] == order[k - 1] <==> k == 1;
    }
  }

  lemma CutKeepsDistinct(order: seq<nat>, k: nat)
    requires Distinct(order) && k < |order|
    ensures Distinct(order[..k] + order[k + 1..])
  {
    var cut := order[..k] + order[k + 1..];
    assert forall j :: 0 <= j < |cut| ==> cut[j] == order[if j < k then j else j + 1];
  }

  lemma LinkOut(next: seq<nat>, prev: seq<nat>, order: seq<nat>, head: nat, k: nat)
    requires Linked(next, prev, order, head) && k < |order|
    ensures next[order[k]] <= head && prev[order[k]] <= head && next[order[k]] != order[k]
    ensures Linked(next[prev[order[k]] := next[order[k]]], prev[next[order[k]] := prev[order[k]]],
                   order[..k] + order[k + 1..], head)
  {
    LinkOutEnds(next, prev, order, head, k);
    CutKeepsDistinct(order, k);
    var b, cut := order[k], order[..k] + order[k + 1..];
    forall j | 0 <= j < |cut|
      ensures cut[j] < head
      ensures next[prev[b] := next[b]][cut[j]] == At(cut, j + 1, head)
      ensures prev[next[b] := prev[b]][cut[j]] == At(cut, j - 1, head)
    {
      LinkOutAt(next, prev, order, head, k, j);
    }
  }

  lemma LinkOutEnds(next: seq<nat>, prev: seq<nat>, order: seq<nat>, head: nat, k: nat)
    requires Linked(next, prev, order, head) && k < |order|
    ensures next[order[k]] <= head && prev[order[k]] <= head && next[order[k]] != order[k]
    ensures var cut := order[..k] + order[k + 1..];
            && next[prev[order[k]] := next[order[k]]][head] == At(cut, 0, head)
            && prev[next[order[k]] := prev[order[k]]][head] == At(cut, |cut| - 1, head)
  {
    assert prev[order[k]] == head <==> k == 0;
    assert next[order[k]] == head <==> k == |order| - 1;
  }

  lemma LinkOutAt(next: seq<nat>, prev: seq<nat>, order: seq<nat>, head: nat, k: nat, j: nat)
    requires Linked(next, prev, order, head) && k < |order| && j < |order| - 1
    ensures next[order[k]] <= head && prev[order[k]] <= head
    ensures var order' := order[..k] + order[k + 1..];
            && order'[j] < head
            && next[prev[order[k]] := next[order[k]]][order'[j]] == At(order', j + 1, head)
            && prev[next[order[k]] := prev[order[k]]][order'[j]] == At(order', j - 1, head)
  {
    var i := if j < k then j else j + 1;
    assert (order[..k] + order[k + 1..])[j] == order[i];
    assert prev[order[k]] == order[i] <==> i == k - 1;
    assert next[order[k]] == order[i] <==> i == k + 1;
  }

  class BufferList {
    const bufs: array<Buf>
    const next: array<nat>   // bufs.Length stands for the list head
    const prev: array<nat>
    ghost var order: seq<nat>

    ghost predicate Valid()
      reads this, bufs, next, prev
    {
      && next != prev
      && next.Length == bufs.Length + 1
      && Linked(next[..], prev[..], order, bufs.Length)
      && (forall i :: 0 <= i < bufs.Length ==> i in order)
      && |order| == bufs.Length
    }

    // binit()
    constructor (n: nat)
      ensures Valid() && bufs.Length == n
      ensures fresh(bufs) && fresh(next) && fresh(prev)
      ensures forall i :: 0 <= i < n ==> bufs[i] == Buf(0, 0, false, 0, [], None, false)
      ensures forall k :: 0 <= k < n ==> order[k] == n - 1 - k
    {
      bufs := new Buf[n](_ => Buf(0, 0, false, 0, [], None, false));
      next := new nat[n + 1](_ => n);
      prev := new nat[n + 1](_ => n);
      order := [];
      new;
      for b := 0 to n
        invariant Linked(next[..], prev[..], order, n)
        invariant |order| == b
        invariant forall k :: 0 <= k < b ==> order[k] == b - 1 - k
        invariant forall i :: 0 <= i < n ==> bufs[i] == Buf(0, 0, false, 0, [], None, false)
      {
        PushFront(b);
      }
      forall i | 0 <= i < n ensures i in order {
        assert order[n - 1 - i] == i;
      }
    }

    // Link a node that is in no list right after the head.
    method PushFront(b: nat)
      requires next != prev && next.Length == bufs.Length + 1
      requires Linked(next[..], prev[..], order, bufs.Length)
      requires b < bufs.Length && b !in order
      modifies this`order, next, prev
      ensures order == [b] + old(order)
      ensures Linked(next[..], prev[..], order, bufs.Length)
    {
      var head := bufs.Length;
      LinkFront(next[..], prev[..], order, head, b);
      next[b] := next[head];
      prev[b] := head;
      prev[next[head]] := b;
      next[head] := b;
      order := [b] + order;
      assert next[..] == old(next[..])[b := old(next[head])][head := b];
      assert prev[..] == old(prev[..])[b := head][old(next[head]) := b];
    }

    method Unlink(b: nat)
      requires next != prev && next.Length == bufs.Length + 1
      requires Linked(next[..], prev[..], order, bufs.Length)
      requires b in order
      modifies this`order, next, prev
      ensures var k := Position(old(order), b); order == old(order)[..k] + old(order)[k + 1..]
      ensures b !in order
      ensures Linked(next[..], prev[..], order, bufs.Length)
    {
      ghost var k := Position(order, b);
      LinkOut(next[..], prev[..], order, bufs.Length, k);
      prev[next[b]] := prev[b];
      next[prev[b]] := next[b];
      order := order[..k] + order[k + 1..];
      assert prev[..] == old(prev[..])[old(next[b]) := old(prev[b])];
      assert next[..] == old(next[..])[old(prev[b]) := old(next[b])];
    }

    // bget() up to the release of bcache.lock: the chosen buffer, or -1 for
    // the panic. Scans from the front for the block, then from the back for
    // an unused buffer.
    method Bget(key: Key) returns (i: int)
      requires Valid()
      modifies bufs
      ensures Valid() && order == old(order)
      ensures var hit, victim := Hit(old(bufs[..]), order, key), Victim(old(bufs[..]), order);
        if hit >= 0 then
          && i == order[hit]
          && bufs[..] == old(bufs[..])[i := old(bufs[..])[i].(refcnt := old(bufs[..])[i].refcnt + 1)]
        else if victim >= 0 then
          && i == order[victim]
          && bufs[..] == old(bufs[..])[i := old(bufs[..])[i].(dev := key.0, blockno := key.1, valid := false, refcnt := 1)]
        else
          i == -1 && bufs[..] == old(bufs[..])
    {
      var head := bufs.Length;
      ghost var hit, victim := Hit(bufs[..], order, key), Victim(bufs[..], order);
      var b := next[head];
      ghost var k := 0;
      while b != head
        invariant 0 <= k <= |order| && b == At(order, k, head)
        invariant hit < 0 || k <= hit
        invariant bufs[..] == old(bufs[..])
        decreases |order| - k
      {
        if bufs[b].Key() == key {
          bufs[b] := bufs[b].(refcnt := bufs[b].refcnt + 1);
          return b;
        }
        b := next[b];
        k := k + 1;
      }
      b := prev[head];
      k := |order| - 1;
      while b != head
        invariant -1 <= k < |order| && b == At(order, k, head)
        invariant victim <= k
        invariant bufs[..] == old(bufs[..])
        decreases k
      {
        if bufs[b].refcnt == 0 {
          bufs[b] := bufs[b].(dev := key.0, blockno := key.1, valid := false, refcnt := 1);
          return b;
        }
        b := prev[b];
        k := k - 1;
      }
      return -1;
    }

    // The first half of brelse(), by caller t; false is the panic.
    method Releasesleep(b: nat, t: nat) returns (ok: bool)
      requires Valid() && b < bufs.Length
      modifies bufs
      ensures Valid() && order == old(order) && (ok <==> old(bufs[b]).holder == Some(t))
      ensures bufs[..] == if ok then old(bufs[..])[b := old(bufs[b]).(holder := None)] else old(bufs[..])
    {
      ok := bufs[b].holder == Some(t);
      if ok {
        bufs[b] := bufs[b].(holder := None);
      }
    }

    // The second half, under bcache.lock: drop the reference; the last one out moves the
    // buffer to the front of the list. Others may have locked the buffer by now.
    method Brelse(b: nat)
      requires Valid() && b < bufs.Length && bufs[b].refcnt > 0
      modifies this`order, bufs, next, prev
      ensures Valid()
      ensures bufs[..] == old(bufs[..])[b := old(bufs[b]).(refcnt := old(bufs[b]).refcnt - 1)]
      ensures order == if old(bufs[b]).refcnt == 1 then MoveToFront(old(order), b) else old(order)
    {
      bufs[b] := bufs[b].(refcnt := bufs[b].refcnt - 1);
      if bufs[b].refcnt == 0 {
        Unlink(b);
        PushFront(b);
        assert order == MoveToFront(old(order), b);
        BufferProof.FrontKeeps(old(order), b);
      }
    }

    method Bpin(b: nat)
      requires Valid() && b < bufs.Length
      modifies bufs
      ensures Valid() && order == old(order)
      ensures bufs[..] == old(bufs[..])[b := old(bufs[b]).(refcnt := old(bufs[b]).refcnt + 1)]
    {
      bufs[b] := bufs[b].(refcnt := bufs[b].refcnt + 1);
    }

    method Bunpin(b: nat)
      requires Valid() && b < bufs.Length && bufs[b].refcnt > 0
      modifies bufs
      ensures Valid() && order == old(order)
      ensures bufs[..] == old(bufs[..])[b := old(bufs[b]).(refcnt := old(bufs[b]).refcnt - 1)]
    {
      bufs[b] := bufs[b].(refcnt := bufs[b].refcnt - 1);
    }
  }
}
