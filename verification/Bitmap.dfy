/** The byte-packed page bitmap of pmm.c: page p is bit p % 8 of byte p / 8. */
module Bitmap {

  /** 1 << k. */
  function Mask(k: nat): bv8
    requires k < 8
  {
    if k == 0 then 1 else if k == 1 then 2 else if k == 2 then 4 else if k == 3 then 8
    else if k == 4 then 16 else if k == 5 then 32 else if k == 6 then 64 else 128
  }

  predicate TestByte(b: bv8, k: nat)
    requires k < 8
  {
    b & Mask(k) != 0
  }

  function SetByte(b: bv8, k: nat): bv8
    requires k < 8
  {
    b | Mask(k)
  }

  function ClearByte(b: bv8, k: nat): bv8
    requires k < 8
  {
    b & !Mask(k)
  }

  predicate TestBit(bytes: seq<bv8>, p: nat)
    requires p < 8 * |bytes|
  {
    TestByte(bytes[p / 8], p % 8)
  }

  function ByteBits(b: bv8): (bits: seq<bool>)
    ensures |bits| == 8 && forall k :: 0 <= k < 8 ==> bits[k] == TestByte(b, k)
  {
    seq(8, k requires 0 <= k < 8 => TestByte(b, k))
  }

  /** The bits a byte string holds, lowest bit of the first byte first. */
  function Unpack(bytes: seq<bv8>): (bits: seq<bool>)
    ensures |bits| == 8 * |bytes|
    ensures forall p {:trigger TestBit(bytes, p)} :: 0 <= p < |bits| ==> bits[p] == TestBit(bytes, p)
  {
    if bytes == [] then []
    else
      var front := bytes[..|bytes| - 1];
      assert forall p {:trigger TestBit(bytes, p)} :: 0 <= p < 8 * |front| ==> TestBit(front, p) == TestBit(bytes, p);
      Unpack(front) + ByteBits(bytes[|bytes| - 1])
  }

  lemma MaskIsShift(k: nat)
    requires k < 8
    ensures Mask(k) == (1 as bv8) << k
  {
    if k == 0 { assert (1 as bv8) << k == 1; }
    else if k == 1 { assert (1 as bv8) << k == 2; }
    else if k == 2 { assert (1 as bv8) << k == 4; }
    else if k == 3 { assert (1 as bv8) << k == 8; }
    else if k == 4 { assert (1 as bv8) << k == 16; }
    else if k == 5 { assert (1 as bv8) << k == 32; }
    else if k == 6 { assert (1 as bv8) << k == 64; }
    else { assert (1 as bv8) << k == 128; }
  }

  /** Setting or clearing one bit of a byte changes that bit and no other. */
  lemma OneBit(b: bv8, k: nat, j: nat)
    requires k < 8 && j < 8
    ensures TestByte(SetByte(b, k), j) == (j == k || TestByte(b, j))
    ensures TestByte(ClearByte(b, k), j) == (j != k && TestByte(b, j))
  {
    OneBitSet(b, k, j);
    OneBitCleared(b, k, j);
  }

  lemma OneBitSet(b: bv8, k: nat, j: nat)
    requires k < 8 && j < 8
    ensures TestByte(SetByte(b, k), j) == (j == k || TestByte(b, j))
  {
  }

  lemma OneBitCleared(b: bv8, k: nat, j: nat)
    requires k < 8 && j < 8
    ensures TestByte(ClearByte(b, k), j) == (j != k && TestByte(b, j))
  {
  }

  /** Replacing one byte changes only the bits of that byte. */
  lemma ReplaceByte(bytes: seq<bv8>, k: nat, b: bv8, q: nat)
    requires k < |bytes| && q < 8 * |bytes|
    ensures Unpack(bytes[k := b])[q] == if q / 8 == k then TestByte(b, q % 8) else Unpack(bytes)[q]
  {
    assert TestBit(bytes, q) == Unpack(bytes)[q] && TestBit(bytes[k := b], q) == Unpack(bytes[k := b])[q];
  }

  lemma SetBit(bytes: seq<bv8>, p: nat)
    requires p < 8 * |bytes|
    ensures Unpack(bytes[p / 8 := SetByte(bytes[p / 8], p % 8)]) == Unpack(bytes)[p := true]
  {
    var k, b := p / 8, SetByte(bytes[p / 8], p % 8);
    var after := bytes[k := b];
    forall q | 0 <= q < 8 * |bytes|
      ensures Unpack(after)[q] == Unpack(bytes)[p := true][q]
    {
      ReplaceByte(bytes, k, b, q);
      if q / 8 == k {
        OneBit(bytes[k], p % 8, q % 8);
        assert TestBit(bytes, q) == Unpack(bytes)[q];
      }
    }
  }

  lemma ClearBit(bytes: seq<bv8>, p: nat)
    requires p < 8 * |bytes|
    ensures Unpack(bytes[p / 8 := ClearByte(bytes[p / 8], p % 8)]) == Unpack(bytes)[p := false]
  {
    var k, b := p / 8, ClearByte(bytes[p / 8], p % 8);
    var after := bytes[k := b];
    forall q | 0 <= q < 8 * |bytes|
      ensures Unpack(after)[q] == Unpack(bytes)[p := false][q]
    {
      ReplaceByte(bytes, k, b, q);
      if q / 8 == k {
        OneBit(bytes[k], p % 8, q % 8);
        assert TestBit(bytes, q) == Unpack(bytes)[q];
      }
    }
  }

  /** A byte of all ones holds eight set bits: what memset with 0xFF leaves behind. */
  lemma AllOnes(k: nat)
    requires k < 8
    ensures TestByte(0xFF, k)
  {
  }
}
