/** `util/bitmap.c`: a pool of ids, one bit each. */
module Bitmaps {

  function Mask(i: nat): bv8
    requires i < 8
  {
    (1 as bv8) << i
  }

  predicate Test(byte: bv8, mask: bv8) { byte & mask != 0 }

  predicate Bit(byte: bv8, i: nat)
    requires i < 8
  {
    Test(byte, Mask(i))
  }

  lemma MaskValues()
    ensures Mask(0) == 1 && Mask(1) == 2 && Mask(2) == 4 && Mask(3) == 8
    ensures Mask(4) == 16 && Mask(5) == 32 && Mask(6) == 64 && Mask(7) == 128
  {
  }

  predicate OneHot(m: bv8) { m in {1, 2, 4, 8, 16, 32, 64, 128} }

  lemma MaskOneHot(i: nat)
    requires i < 8
    ensures OneHot(Mask(i))
  {
    MaskValues();
    hide Mask;
    if i == 0 {} else if i == 1 {} else if i == 2 {} else if i == 3 {} else if i == 4 {} else if i == 5 {}
      else if i == 6 {} else {}
  }

  /** The position of a one-hot byte's bit. */
  function Position(m: bv8): nat {
    if m == 1 then 0 else if m == 2 then 1 else if m == 4 then 2 else if m == 8 then 3
    else if m == 16 then 4 else if m == 32 then 5 else if m == 64 then 6 else 7
  }

  lemma MaskPosition(i: nat)
    requires i < 8
    ensures Position(Mask(i)) == i
  {
    MaskValues();
    hide Mask;
    if i == 0 {} else if i == 1 {} else if i == 2 {} else if i == 3 {} else if i == 4 {} else if i == 5 {}
      else if i == 6 {} else {}
  }

  lemma MaskInjective(i: nat, j: nat)
    requires i < 8 && j < 8
    ensures Mask(i) == Mask(j) <==> i == j
  {
    hide Mask, Position;
    MaskPosition(i);
    MaskPosition(j);
  }

  /** Setting and clearing one bit of a byte leaves the other seven alone. */
  lemma OneBit(byte: bv8, i: nat, j: nat)
    requires i < 8 && j < 8
    ensures Bit(byte | Mask(i), j) == (i == j || Bit(byte, j))
    ensures Bit(byte & !Mask(i), j) == (i != j && Bit(byte, j))
  {
    hide Mask, OneHot, Test;
    MaskOneHot(i);
    MaskOneHot(j);
    MaskInjective(i, j);
    Masks(byte, Mask(i), Mask(j));
  }

  lemma Masks(byte: bv8, a: bv8, b: bv8)
    requires OneHot(a) && OneHot(b)
    ensures Test(byte | a, b) == (a == b || Test(byte, b))
    ensures Test(byte & !a, b) == (a != b && Test(byte, b))
  {
  }

  /** A byte with all bits set is 0xff, and no other. */
  lemma FullByte(byte: bv8)
    ensures byte & 0xff == 0xff <==> forall i :: 0 <= i < 8 ==> Bit(byte, i)
  {
    MaskValues();
    hide Mask;
    assert (forall i :: 0 <= i < 8 ==> Bit(byte, i)) <==>
      Bit(byte, 0) && Bit(byte, 1) && Bit(byte, 2) && Bit(byte, 3) && Bit(byte, 4) && Bit(byte, 5) && Bit(byte, 6) &&
        Bit(byte, 7);
    AllBits(byte);
  }

  lemma AllBits(b: bv8)
    ensures b & 0xff == 0xff <==>
      b & 1 != 0 && b & 2 != 0 && b & 4 != 0 && b & 8 != 0 && b & 16 != 0 && b & 32 != 0 && b & 64 != 0 && b & 128 != 0
  {
  }

  /** `bytes` covers exactly `size` bits; both pools have 4096. */
  class Bitmap {
    const bytes: array<bv8>
    const size: nat

    ghost predicate Valid()
      reads this
    {
      bytes.Length * 8 == size
    }

    /** The ids in use. */
    function Used(): (s: set<nat>)
      requires Valid()
      reads this, bytes
      ensures forall n: nat :: n in s <==> n < size && Bit(bytes[n / 8], n % 8)
    {
      set n: nat | n < size && Bit(bytes[n / 8], n % 8)
    }

    constructor (size: nat)
      requires size % 8 == 0
      ensures Valid() && this.size == size && fresh(bytes) && Used() == {}
    {
      this.size := size;
      bytes := new bv8[size / 8](_ => 0);
    }

    /** c_bitmap_set. The bound check lets n == size through, which is no bit of the bitmap. */
    method Set(n: nat) returns (status: int)
      requires Valid() && n != size
      modifies bytes
      ensures status == if n > size then -1 else 0
      ensures Used() == if n > size then old(Used()) else old(Used()) + {n}
    {
      if n > size { return -1; }
      bytes[n / 8] := bytes[n / 8] | Mask(n % 8);
      forall m: nat | m < size ensures Bit(bytes[m / 8], m % 8) == (m == n || old(Bit(bytes[m / 8], m % 8))) {
        if m / 8 == n / 8 { OneBit(old(bytes[n / 8]), n % 8, m % 8); }
      }
      return 0;
    }

    /** c_bitmap_unset */
    method Unset(n: nat) returns (status: int)
      requires Valid() && n != size
      modifies bytes
      ensures status == if n > size then -1 else 0
      ensures Used() == if n > size then old(Used()) else old(Used()) - {n}
    {
      if n > size { return -1; }
      bytes[n / 8] := bytes[n / 8] & !Mask(n % 8);
      forall m: nat | m < size ensures Bit(bytes[m / 8], m % 8) == (m != n && old(Bit(bytes[m / 8], m % 8))) {
        if m / 8 == n / 8 { OneBit(old(bytes[n / 8]), n % 8, m % 8); }
      }
      return 0;
    }

    /** c_bitmap_get */
    method Get(n: nat) returns (r: int)
      requires Valid() && n != size
      ensures r == if n > size then -1 else if n in Used() then 1 else 0
    {
      if n > size { return -1; }
      return if bytes[n / 8] & Mask(n % 8) != 0 then 1 else 0;
    }

    /** c_bitmap_get_free: the least unused id, and 0 when there is none. */
    method GetFree() returns (r: nat)
      requires Valid()
      ensures (r < size && r !in Used() && forall n: nat :: n < r ==> n in Used())
           || (r == 0 && forall n: nat :: n < size ==> n in Used())
    {
      hide Mask, Test;
      var byteI := 0;
      while byteI < size / 8
        invariant 0 <= byteI <= size / 8
        invariant forall n: nat :: n < byteI * 8 ==> n in Used()
      {
        var byte := bytes[byteI];
        FullByte(byte);
        if byte & 0xff != 0xff {
          var bitI := 0;
          while bitI < 8
            invariant 0 <= bitI <= 8
            invariant forall i: nat :: i < bitI ==> Bit(byte, i)
          {
            if !Bit(byte, bitI) {
              forall n: nat | n < byteI * 8 + bitI ensures n in Used() {
                if n >= byteI * 8 { assert n / 8 == byteI && Bit(byte, n % 8); }
              }
              assert (byteI * 8 + bitI) / 8 == byteI && (byteI * 8 + bitI) % 8 == bitI;
              return byteI * 8 + bitI;
            }
            bitI := bitI + 1;
          }
        }
        forall n: nat | n < (byteI + 1) * 8 ensures n in Used() {
          if n >= byteI * 8 { assert n / 8 == byteI && Bit(byte, n % 8); }
        }
        byteI := byteI + 1;
      }
      return 0;
    }
  }
}
