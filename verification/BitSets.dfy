/** The bit set behind the breakable lines of a function: one bit per position, in bytes. */
module BitSets {

  /** `1 << bit`, for the bits 0 to 7 of a byte. */
  function Mask(bit: nat): bv8 {
    match bit
    case 0 => 0x01 case 1 => 0x02 case 2 => 0x04 case 3 => 0x08
    case 4 => 0x10 case 5 => 0x20 case 6 => 0x40 case _ => 0x80
  }

  /** `MEM_SIZE`: the bytes that hold so many bits. */
  function MemSize(size: nat): nat {
    size / 8 + if size % 8 != 0 then 1 else 0
  }

  predicate HasMask(byte: bv8, mask: bv8) {
    byte & mask != 0
  }

  function WithMask(byte: bv8, mask: bv8): bv8 {
    byte | mask
  }

  predicate HasBit(byte: bv8, bit: nat) {
    HasMask(byte, Mask(bit))
  }

  function WithBit(byte: bv8, bit: nat): bv8 {
    WithMask(byte, Mask(bit))
  }

  predicate Bit(bytes: seq<bv8>, p: nat) {
    p / 8 < |bytes| && HasBit(bytes[p / 8], p % 8)
  }

  /** A set as it stands: how many positions it has, and its bytes. */
  datatype Bits = Bits(size: nat, bytes: seq<bv8>)

  /** `xdebug_set_in`. */
  predicate In(b: Bits, p: nat) {
    p < b.size && Bit(b.bytes, p)
  }

  /** There is a byte for every position, and no bit is set beyond them. */
  ghost predicate ValidBits(b: Bits) {
    |b.bytes| == MemSize(b.size) && forall p: nat :: Bit(b.bytes, p) ==> p < b.size
  }

  lemma MaskSelects(byte: bv8, i: nat, j: nat)
    requires i < 8 && j < 8
    ensures HasBit(WithBit(byte, i), j) <==> i == j || HasBit(byte, j)
  {
    MasksDiffer(i, j);
    OrSelects(byte, Mask(i), Mask(j));
  }

  lemma OrSelects(b: bv8, m: bv8, n: bv8)
    requires m != 0 && (m == n || !HasMask(m, n))
    ensures HasMask(WithMask(b, m), n) <==> m == n || HasMask(b, n)
  {
  }

  lemma MasksDiffer(i: nat, j: nat)
    requires i < 8 && j < 8
    ensures Mask(i) != 0 && (i == j <==> Mask(i) == Mask(j)) && (i != j ==> !HasMask(Mask(i), Mask(j)))
  {
  }

  lemma ZeroHasNoBit(i: nat)
    requires i < 8
    ensures !HasBit(0, i)
  {
  }

  class BitSet {
    var size: nat
    var bytes: array<bv8>
    const resizable: bool

    ghost function View(): Bits
      reads this, bytes
    {
      Bits(size, bytes[..])
    }

    ghost predicate Valid()
      reads this, bytes
    {
      ValidBits(View())
    }

    /** No position is in a new set. */
    constructor (size: nat, resizable: bool)
      ensures Valid() && this.size == size && this.resizable == resizable && fresh(bytes)
      ensures forall p: nat :: !In(View(), p)
    {
      this.size := size;
      this.resizable := resizable;
      bytes := new bv8[MemSize(size)](_ => 0);
      new;
      forall p: nat ensures !Bit(bytes[..], p) {
        ZeroHasNoBit(p % 8);
      }
    }

    /** Growing keeps the members. */
    method Resize(newSize: nat)
      requires Valid() && newSize >= size
      modifies this
      ensures Valid() && size == newSize && (bytes == old(bytes) || fresh(bytes))
      ensures forall p: nat :: In(View(), p) <==> old(In(View(), p))
    {
      var oldMem, newMem := MemSize(size), MemSize(newSize);
      if newMem == oldMem {
        size := newSize;
        return;
      }
      var mem := new bv8[newMem](_ => 0);
      ghost var before := bytes[..];
      assert oldMem <= newMem;
      for i := 0 to oldMem
        modifies mem
        invariant mem[..i] == before[..i] && forall k :: i <= k < newMem ==> mem[k] == 0
      {
        mem[i] := bytes[i];
      }
      forall p: nat ensures Bit(mem[..], p) <==> Bit(before, p) {
        ZeroHasNoBit(p % 8);
      }
      bytes := mem;
      size := newSize;
    }

    method Add(p: nat)
      requires Valid() && (resizable || p < size)
      modifies this, bytes
      ensures Valid() && size == (if p < old(size) then old(size) else p + 1)
      ensures bytes == old(bytes) || fresh(bytes)
      ensures forall q: nat :: In(View(), q) <==> q == p || old(In(View(), q))
    {
      if p >= size && resizable {
        Resize(p + 1);
      }
      assert p / 8 < MemSize(size);
      SetBit(p);
    }

    method SetBit(p: nat)
      requires p / 8 < bytes.Length
      modifies bytes
      ensures forall q: nat :: Bit(bytes[..], q) <==> q == p || old(Bit(bytes[..], q))
    {
      ghost var before := bytes[..];
      bytes[p / 8] := WithBit(bytes[p / 8], p % 8);
      forall q: nat ensures Bit(bytes[..], q) <==> q == p || Bit(before, q) {
        OneMoreBit(before, p, q);
      }
    }
  }

  /** Changing one byte of many, whatever the bits are. */
  lemma OneMore<B>(bytes: seq<B>, p: nat, q: nat, has: (B, nat) -> bool, with: (B, nat) -> B)
    requires p / 8 < |bytes|
    requires has(with(bytes[p / 8], p % 8), q % 8) <==> p % 8 == q % 8 || has(bytes[p / 8], q % 8)
    ensures var after := bytes[p / 8 := with(bytes[p / 8], p % 8)];
            q / 8 < |bytes| && has(after[q / 8], q % 8) <==> q == p || (q / 8 < |bytes| && has(bytes[q / 8], q % 8))
  {
    assert p == q <==> p / 8 == q / 8 && p % 8 == q % 8;
  }

  lemma OneMoreBit(bytes: seq<bv8>, p: nat, q: nat)
    requires p / 8 < |bytes|
    ensures Bit(bytes[p / 8 := WithBit(bytes[p / 8], p % 8)], q) <==> q == p || Bit(bytes, q)
  {
    MaskSelects(bytes[p / 8], p % 8, q % 8);
    OneMore(bytes, p, q, HasBit, WithBit);
  }

}
