// 32-bit wrapping sequence numbers (Common/Net/SequenceNumber.h).

module SequenceNumber {

  /** The number of 32-bit values, and half of it. */
  const RANGE: int := 0x1_0000_0000
  const HALF_RANGE: int := 0x8000_0000

  type SequenceNumber = x: int | 0 <= x < RANGE

  /** The 32-bit value that carries the unwrapped number `u`. */
  function Wrap(u: int): SequenceNumber {
    u % RANGE
  }

  /** 32-bit unsigned subtraction. */
  function Subtract(lhs: SequenceNumber, rhs: SequenceNumber): SequenceNumber {
    Wrap(lhs - rhs)
  }

  predicate IsSequenceNewer(lhs: SequenceNumber, rhs: SequenceNumber) {
    if lhs == rhs then false
    else if lhs > rhs then lhs - rhs < HALF_RANGE
    else rhs - lhs > HALF_RANGE
  }

  predicate IsSequenceOlder(lhs: SequenceNumber, rhs: SequenceNumber) {
    IsSequenceNewer(rhs, lhs)
  }

  predicate IsSequenceOlderOrEqual(lhs: SequenceNumber, rhs: SequenceNumber) {
    lhs == rhs || IsSequenceOlder(lhs, rhs)
  }

  /** `u` is close enough to `reference` for 32 bits to tell them apart. */
  predicate Near(reference: int, u: int) {
    reference - HALF_RANGE <= u < reference + HALF_RANGE
  }

  /** The one number near `reference` that the 32-bit value `s` can stand for. */
  function Unwrap(reference: int, s: SequenceNumber): (u: int)
    ensures Near(reference, u) && Wrap(u) == s
  {
    var ahead := Subtract(s, Wrap(reference));
    if ahead < HALF_RANGE then reference + ahead else reference + ahead - RANGE
  }

  lemma UnwrapFinds(reference: int, u: int)
    requires Near(reference, u)
    ensures Unwrap(reference, Wrap(u)) == u
  {
    WrapDifference(u, reference);
    if u < reference {
      assert Wrap(u - reference) == u - reference + RANGE;
    }
  }

  /** The branches compute the comparison of section 3.2 of RFC 1982 with 32 serial bits. */
  lemma NewerIsSerialOrder(lhs: SequenceNumber, rhs: SequenceNumber)
    ensures IsSequenceNewer(lhs, rhs) <==> 0 < Subtract(lhs, rhs) < HALF_RANGE
    ensures (!IsSequenceNewer(lhs, rhs) && !IsSequenceNewer(rhs, lhs))
       <==> (lhs == rhs || Subtract(lhs, rhs) == HALF_RANGE)
    ensures !(IsSequenceNewer(lhs, rhs) && IsSequenceNewer(rhs, lhs))
  {
    if lhs < rhs {
      assert Subtract(lhs, rhs) == lhs - rhs + RANGE;
    }
    if rhs < lhs {
      assert Subtract(rhs, lhs) == rhs - lhs + RANGE;
    }
  }

  /** On numbers less than half the range apart the 32-bit order is the order of the integers. */
  lemma NewerIsGreater(reference: int, u: int)
    requires Near(reference, u)
    ensures IsSequenceNewer(Wrap(u), Wrap(reference)) <==> u > reference
    ensures Wrap(u) == Wrap(reference) <==> u == reference
    ensures u >= reference ==> Subtract(Wrap(u), Wrap(reference)) == u - reference
    ensures u <= reference ==> Subtract(Wrap(reference), Wrap(u)) == reference - u
  {
    WrapDifference(u, reference);
    WrapDifference(reference, u);
    NewerIsSerialOrder(Wrap(u), Wrap(reference));
    if u < reference {
      assert Wrap(u - reference) == u - reference + RANGE;
    }
  }

  lemma WrapDifference(a: int, b: int)
    ensures Subtract(Wrap(a), Wrap(b)) == Wrap(a - b)
  {
    var p, q := a / RANGE, b / RANGE;
    assert Wrap(a) - Wrap(b) == (a - b) + (q - p) * RANGE;
    WrapShift(a - b, q - p);
  }

  lemma {:induction false} WrapShift(a: int, turns: int)
    ensures Wrap(a + turns * RANGE) == Wrap(a)
    decreases if turns < 0 then -turns else turns
  {
    if turns > 0 {
      WrapShift(a, turns - 1);
    } else if turns < 0 {
      WrapShift(a, turns + 1);
    }
  }

  /** The order is not transitive: three numbers a third of the range apart beat each other in a ring. */
  lemma OrderIsNotTransitive()
    ensures exists a, b, c ::
      IsSequenceNewer(a, b) && IsSequenceNewer(b, c) && IsSequenceNewer(c, a)
  {
    assert IsSequenceNewer(0x6000_0000, 0) && IsSequenceNewer(0xC000_0000, 0x6000_0000) && IsSequenceNewer(0, 0xC000_0000);
  }
}
