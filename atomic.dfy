/**
 * The lock-free primitives (AtomicBool, AtomicCountXP). Each operation is
 * one interlocked instruction; the model keeps its single-threaded effect.
 */
module Atomic {

  /** A flag stored as an integer cell holding 1 (set) or 0 (unset). */
  class AtomicBool {
    static const TrueValue: int := 1
    static const FalseValue: int := 0

    var value: int

    ghost predicate Valid()
      reads this
    {
      value == TrueValue || value == FalseValue
    }

    /** The flag the cell stands for. */
    function Get(): bool
      reads this
    {
      value == TrueValue
    }

    constructor (flag: bool)
      ensures Valid() && Get() == flag
    {
      value := if flag then TrueValue else FalseValue;
    }

    /** Reads the flag (a compare-exchange of 1 with 1, which never changes the cell). */
    method IsSet() returns (r: bool)
      requires Valid()
      ensures r == Get()
    {
      r := value == TrueValue;
    }

    method Set()
      modifies this
      ensures Valid() && Get()
    {
      value := TrueValue;
    }

    method UnSet()
      modifies this
      ensures Valid() && !Get()
    {
      value := FalseValue;
    }

    method SetTo(flag: bool)
      modifies this
      ensures Valid() && Get() == flag
    {
      value := if flag then TrueValue else FalseValue;
    }

    /** True iff the flag was set; either way it is unset afterwards. */
    method CheckSetAndUnset() returns (wasSet: bool)
      requires Valid()
      modifies this
      ensures wasSet == old(Get())
      ensures Valid() && !Get()
    {
      var previous := value;
      if value == TrueValue {
        value := FalseValue;
      }
      wasSet := previous == TrueValue;
    }

    /** True iff the flag was unset; either way it is set afterwards. */
    method CheckUnsetAndSet() returns (wasUnset: bool)
      requires Valid()
      modifies this
      ensures wasUnset == !old(Get())
      ensures Valid() && Get()
    {
      var previous := value;
      if value == FalseValue {
        value := TrueValue;
      }
      wasUnset := previous == FalseValue;
    }
  }

  /** A two's-complement 32-bit integer. */
  newtype int32 = x: int | -0x8000_0000 <= x < 0x8000_0000

  /** The 32-bit wrap-around of an unbounded integer (interlocked arithmetic overflows silently). */
  function Wrap32(x: int): (r: int32)
    ensures (r as int - x) % 0x1_0000_0000 == 0
    ensures -0x8000_0000 <= x < 0x8000_0000 ==> r as int == x
  {
    ((x + 0x8000_0000) % 0x1_0000_0000 - 0x8000_0000) as int32
  }

  /** Wrapping an intermediate sum changes nothing: adding in 32 bits is adding then wrapping. */
  lemma WrapAbsorbs(a: int, b: int)
    ensures Wrap32(a + Wrap32(b) as int) == Wrap32(a + b)
  {
    var w := Wrap32(b) as int;
    var k := (w - b) / 0x1_0000_0000;
    assert w == b + k * 0x1_0000_0000;
    assert (a + w + 0x8000_0000) % 0x1_0000_0000 == (a + b + 0x8000_0000) % 0x1_0000_0000 by {
      ModShift(a + b + 0x8000_0000, k);
    }
  }

  lemma ModShift(x: int, k: int)
    ensures (x + k * 0x1_0000_0000) % 0x1_0000_0000 == x % 0x1_0000_0000
  {
  }

  /**
   * An interlocked counter. Every update returns the new value and wraps
   * at 32 bits.
   */
  class AtomicCountXP {
    var count: int32

    constructor (initialCount: int32)
      ensures count == initialCount
    {
      count := initialCount;
    }

    /** The parameterless constructor starts at zero. */
    constructor Zero()
      ensures count == 0
    {
      count := 0;
    }

    /** The current value (a compare-exchange of 0 with 0, which never changes the cell). */
    method Count() returns (r: int32)
      ensures r == count
    {
      r := count;
    }

    method Increment() returns (r: int32)
      modifies this
      ensures r == count && count == Wrap32(old(count) as int + 1)
    {
      count := Wrap32(count as int + 1);
      r := count;
    }

    method Decrement() returns (r: int32)
      modifies this
      ensures r == count && count == Wrap32(old(count) as int - 1)
    {
      count := Wrap32(count as int - 1);
      r := count;
    }

    method Add(valueToAdd: int32) returns (r: int32)
      modifies this
      ensures r == count && count == Wrap32(old(count) as int + valueToAdd as int)
    {
      count := Wrap32(count as int + valueToAdd as int);
      r := count;
    }

    /**
     * Adds the negated amount; the negation itself wraps (negating
     * int.MinValue gives int.MinValue), yet the result is still the
     * wrapped difference.
     */
    method Subtract(amount: int32) returns (r: int32)
      modifies this
      ensures r == count && count == Wrap32(old(count) as int - amount as int)
    {
      WrapAbsorbs(count as int, -1 * amount as int);
      r := Add(Wrap32(-1 * amount as int));
    }

    /** Sets the counter to zero and returns what it held. */
    method Reset() returns (previous: int32)
      modifies this
      ensures previous == old(count) && count == 0
    {
      previous := count;
      count := 0;
    }

    method SetTo(value: int32)
      modifies this
      ensures count == value
    {
      count := value;
    }
  }

  /** Subtracting int.MinValue: the negation wraps back to int.MinValue, and the counter still moves by 2^31. */
  lemma SubtractMinValue(c: int32)
    ensures Wrap32(-1 * -0x8000_0000) == -0x8000_0000
    ensures Wrap32(c as int + Wrap32(-1 * -0x8000_0000) as int) == Wrap32(c as int - (-0x8000_0000))
  {
    WrapAbsorbs(c as int, 0x8000_0000);
  }
}
