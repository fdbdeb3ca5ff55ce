// Fixed-width bit fields: the 32-bit ack field and the 256-bit replay field.
// Index i of the sequence is bit i of the field, so the width is the length.

module BitWindow {

  type Bits = seq<bool>

  /** The 32-bit field that travels in a reliable header. */
  type Bits32 = b: Bits | |b| == 32 witness Cleared(32)

  function Cleared(width: nat): (bits: Bits)
    ensures |bits| == width && forall i :: 0 <= i < width ==> !bits[i]
  {
    seq(width, _ => false)
  }

  /** `bits << distance`. A distance of the whole width or more leaves no bit set. */
  function ShiftLeft(bits: Bits, distance: nat): (shifted: Bits)
    ensures |shifted| == |bits|
    ensures forall i :: 0 <= i < |bits| ==> shifted[i] == (distance <= i && bits[i - distance])
  {
    seq(|bits|, i requires 0 <= i < |bits| => distance <= i && bits[i - distance])
  }

  /** `bits | (1 << index)`. */
  function SetBit(bits: Bits, index: nat): Bits
    requires index < |bits|
  {
    bits[index := true]
  }

  // The unsigned number a field is written as.

  function Pow2(n: nat): (p: int)
    ensures p >= 1
  {
    if n == 0 then 1 else 2 * Pow2(n - 1)
  }

  function BitsToInt(bits: Bits): (value: int)
    ensures 0 <= value < Pow2(|bits|)
  {
    if bits == [] then 0 else (if bits[0] then 1 else 0) + 2 * BitsToInt(bits[1..])
  }

  function IntToBits(value: nat, width: nat): (bits: Bits)
    ensures |bits| == width
  {
    if width == 0 then [] else [value % 2 == 1] + IntToBits(value / 2, width - 1)
  }

  /** Bit `i` of a number. */
  predicate BitOf(value: nat, i: nat)
    decreases i
  {
    if i == 0 then value % 2 == 1 else BitOf(value / 2, i - 1)
  }

  lemma LowestBit(bits: Bits)
    requires bits != []
    ensures BitsToInt(bits) / 2 == BitsToInt(bits[1..]) && (BitsToInt(bits) % 2 == 1 <==> bits[0])
  {
  }

  /** Bit `i` of the field is bit `i` of the number it is written as. */
  lemma {:induction false} BitsAreThoseOfTheNumber(bits: Bits, i: nat)
    requires i < |bits|
    ensures BitOf(BitsToInt(bits), i) <==> bits[i]
  {
    hide BitsToInt;
    LowestBit(bits);
    if i > 0 {
      BitsAreThoseOfTheNumber(bits[1..], i - 1);
    }
  }

  lemma {:induction false} BitsSurviveTheWire(bits: Bits)
    ensures IntToBits(BitsToInt(bits), |bits|) == bits
  {
    if bits != [] {
      BitsSurviveTheWire(bits[1..]);
      LowestBit(bits);
    }
  }

  lemma {:induction false} IntsSurviveTheWire(value: nat, width: nat)
    requires value < Pow2(width)
    ensures BitsToInt(IntToBits(value, width)) == value
  {
    if width > 0 {
      IntsSurviveTheWire(value / 2, width - 1);
      assert IntToBits(value, width)[1..] == IntToBits(value / 2, width - 1);
    }
  }

  lemma Pow2Of32()
    ensures Pow2(32) == 0x1_0000_0000
  {
    assert Pow2(8) == 256;
    assert Pow2(16) == 256 * Pow2(8);
    assert Pow2(24) == 256 * Pow2(16);
    assert Pow2(32) == 256 * Pow2(24);
  }
}
