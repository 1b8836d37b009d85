// The free bitmap as bytes: block b is bit b % 8 of byte b / 8.
module Bitmap {
  type Byte = x: int | 0 <= x < 256

  // 1 << k
  function Mask(k: nat): nat {
    if k == 0 then 1 else 2 * Mask(k - 1)
  }

  // (x & (1 << k)) != 0
  predicate HasBit(x: nat, k: nat) {
    if k == 0 then x % 2 == 1 else HasBit(x / 2, k - 1)
  }

  // x | (1 << k)
  function Or(x: nat, k: nat): nat {
    if HasBit(x, k) then x else x + Mask(k)
  }

  // x & ~(1 << k)
  function AndNot(x: nat, k: nat): int {
    if HasBit(x, k) then x - Mask(k) else x
  }

  lemma {:induction false} AddMask(x: nat, k: nat, j: nat)
    requires !HasBit(x, k)
    ensures HasBit(x + Mask(k), j) <==> j == k || HasBit(x, j)
  {
    if k == 0 {
      assert (x + 1) / 2 == x / 2;
    } else {
      assert (x + Mask(k)) / 2 == x / 2 + Mask(k - 1) && (x + Mask(k)) % 2 == x % 2;
      if j > 0 {
        AddMask(x / 2, k - 1, j - 1);
      }
    }
  }

  lemma {:induction false} SubMask(x: nat, k: nat, j: nat)
    requires HasBit(x, k)
    ensures x >= Mask(k) && (HasBit(x - Mask(k), j) <==> j != k && HasBit(x, j))
  {
    if k == 0 {
      assert x >= 1 && (x - 1) / 2 == x / 2;
    } else {
      SubMask(x / 2, k - 1, if j > 0 then j - 1 else 0);
      assert (x - Mask(k)) / 2 == x / 2 - Mask(k - 1) && (x - Mask(k)) % 2 == x % 2;
    }
  }

  lemma {:induction false} OrFits(x: nat, k: nat, n: nat)
    requires x < Mask(n) && k < n && !HasBit(x, k)
    ensures x + Mask(k) < Mask(n)
  {
    if k > 0 {
      OrFits(x / 2, k - 1, n - 1);
    }
  }

  lemma ByteOk(x: Byte, k: nat)
    requires k < 8
    ensures 0 <= Or(x, k) < 256 && 0 <= AndNot(x, k) < 256
  {
    assert Mask(2) == 4;
    assert Mask(4) == 16;
    assert Mask(6) == 64;
    assert Mask(8) == 256;
    if HasBit(x, k) {
      SubMask(x, k, 0);
    } else {
      OrFits(x, k, 8);
    }
  }

  predicate Bit(bytes: seq<Byte>, b: nat)
    requires b / 8 < |bytes|
  {
    HasBit(bytes[b / 8], b % 8)
  }

  function SetBit(bytes: seq<Byte>, b: nat): (r: seq<Byte>)
    requires b / 8 < |bytes|
    ensures |r| == |bytes|
  {
    ByteOk(bytes[b / 8], b % 8);
    bytes[b / 8 := Or(bytes[b / 8], b % 8)]
  }

  function ClearBit(bytes: seq<Byte>, b: nat): (r: seq<Byte>)
    requires b / 8 < |bytes|
    ensures |r| == |bytes|
  {
    ByteOk(bytes[b / 8], b % 8);
    bytes[b / 8 := AndNot(bytes[b / 8], b % 8)]
  }

  // Setting or clearing one bit leaves the others alone.
  lemma BitChanged(bytes: seq<Byte>, b: nat, c: nat)
    requires b / 8 < |bytes| && c / 8 < |bytes|
    ensures Bit(SetBit(bytes, b), c) <==> c == b || Bit(bytes, c)
    ensures Bit(ClearBit(bytes, b), c) <==> c != b && Bit(bytes, c)
  {
    var x := bytes[b / 8];
    assert b == c <==> b / 8 == c / 8 && b % 8 == c % 8;
    if HasBit(x, b % 8) {
      SubMask(x, b % 8, c % 8);
    } else {
      AddMask(x, b % 8, c % 8);
    }
  }

  // The bytes hold these bits.
  ghost predicate HoldsBits(bytes: seq<Byte>, bits: seq<bool>) {
    |bits| <= 8 * |bytes| && forall b :: 0 <= b < |bits| ==> Bit(bytes, b) == bits[b]
  }

  lemma ChangeHolds(bytes: seq<Byte>, bits: seq<bool>, b: nat)
    requires HoldsBits(bytes, bits) && b < |bits|
    ensures HoldsBits(SetBit(bytes, b), bits[b := true]) && HoldsBits(ClearBit(bytes, b), bits[b := false])
  {
    forall c | 0 <= c < |bits|
      ensures Bit(SetBit(bytes, b), c) == bits[b := true][c] && Bit(ClearBit(bytes, b), c) == bits[b := false][c]
    {
      BitChanged(bytes, b, c);
    }
  }
}
