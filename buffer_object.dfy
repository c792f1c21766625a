/**
  `BufferObject<TARGET, MIN_GPU_BUFFER_LENGH>`: one GPU buffer handle, its length in bytes and
  the target it is currently mapped through (0 when it is not mapped).
*/
module Buffers {
  import opened Driver

  /** 2^64: `size_t` arithmetic wraps modulo this. */
  const SIZE_T_MODULUS: nat := 0x1_0000_0000_0000_0000

  function Max(a: nat, b: nat): (m: nat)
    ensures m >= a && m >= b && (m == a || m == b)
  {
    if a >= b then a else b
  }

  /**
    The byte length `allocate` gives a buffer of `count` elements of `elemSize` bytes: at least
    `minLength` elements, computed in `size_t`.
  */
  function BufferLength(count: nat, minLength: nat, elemSize: nat): nat
  {
    (Max(count, minLength) * elemSize) % SIZE_T_MODULUS
  }

  /**
    Unless the product wraps, the buffer holds every requested element and at least
    `minLength` of them.
  */
  lemma BufferLengthHoldsCount(count: nat, minLength: nat, elemSize: nat)
    requires Max(count, minLength) * elemSize < SIZE_T_MODULUS
    ensures BufferLength(count, minLength, elemSize) >= count * elemSize
    ensures BufferLength(count, minLength, elemSize) >= minLength * elemSize
    ensures 0 < minLength && 0 < elemSize ==> BufferLength(count, minLength, elemSize) > 0
  {
    var m := Max(count, minLength);
    var p := m * elemSize;
    SmallIsItsOwnRemainder(p, SIZE_T_MODULUS);
    MulMonotone(count, m, elemSize);
    MulMonotone(minLength, m, elemSize);
    if 0 < minLength {
      MulMonotone(1, m, elemSize);
    }
  }

  lemma SmallIsItsOwnRemainder(p: nat, modulus: nat)
    requires p < modulus
    ensures p % modulus == p
  {
  }

  lemma MulMonotone(a: nat, b: nat, c: nat)
    requires a <= b
    ensures a * c <= b * c
  {
  }

  /** With the product wrapping, the length can be smaller than what was asked for. */
  lemma BufferLengthWraps()
    ensures BufferLength(0x8000_0000_0000_0000, 0, 2) == 0
  {
  }

  class BufferObject {
    var bo: nat
    var length: nat
    var mappedTarget: nat
    /** The `TARGET` template argument. */
    const target: nat
    /** The `MIN_GPU_BUFFER_LENGH` template argument. */
    const minLength: nat

    ghost function Owned(): set<Handle>
      reads this
    {
      if bo != 0 then {Handle(Buffer, bo)} else {}
    }

    ghost predicate Valid(gl: Gl)
      reads this, gl
    {
      gl.Valid() && Owned() <= gl.live
    }

    constructor (target: nat, minLength: nat)
      ensures this.target == target && this.minLength == minLength
      ensures bo == 0 && length == 0 && mappedTarget == 0 && Owned() == {}
    {
      this.target := target;
      this.minLength := minLength;
      bo := 0;
      length := 0;
      mappedTarget := 0;
    }

    predicate IsEmpty()
      reads this
    {
      bo == 0
    }

    /** Deletes the handle if there is one and zeroes the length; the mapping flag is left as it was. */
    method Cleanup(gl: Gl)
      requires Valid(gl)
      modifies this`bo, this`length, gl`live
      ensures Valid(gl) && IsEmpty() && length == 0 && Owned() == {}
      ensures gl.live == old(gl.live) - old(Owned())
    {
      if bo != 0 {
        gl.Delete(Buffer, bo);
        bo := 0;
      }
      length := 0;
    }

    /**
      `allocate<T>(count, ptr)`: releases the previous buffer, then creates a fresh one of
      `BufferLength(count, minLength, sizeof(T))` bytes. `count` and `sizeof(T)` are `size_t`.
    */
    method Allocate(gl: Gl, count: nat, elemSize: nat)
      requires Valid(gl)
      requires count < SIZE_T_MODULUS && elemSize < SIZE_T_MODULUS
      modifies this`bo, this`length, gl`live, gl`next
      ensures Valid(gl) && !IsEmpty()
      ensures length == BufferLength(count, minLength, elemSize)
      ensures gl.live == (old(gl.live) - old(Owned())) + Owned()
      ensures Handle(Buffer, bo) !in old(gl.live)
    {
      Cleanup(gl);
      bo := gl.Gen(Buffer);
      length := BufferLength(count, minLength, elemSize);
    }

    /** `map(offset, count)`: maps that byte range for reading and records the target it is mapped through. */
    method MapRange(offset: nat, count: nat) returns (range: (nat, nat))
      modifies this`mappedTarget
      ensures mappedTarget == target
      ensures range == (offset, count)
    {
      mappedTarget := target;
      range := (offset, count);
    }

    /** `map()`: maps the whole buffer. */
    method Map() returns (range: (nat, nat))
      modifies this`mappedTarget
      ensures mappedTarget == target
      ensures range == (0, length)
    {
      range := MapRange(0, length);
    }

    /** `unmap`: calls the driver's unmap (reported in `unmapped`) only when a mapping is recorded, then clears it. */
    method Unmap() returns (unmapped: bool)
      modifies this`mappedTarget
      ensures unmapped <==> old(mappedTarget) != 0
      ensures mappedTarget == 0
    {
      unmapped := false;
      if mappedTarget != 0 {
        unmapped := true;
        mappedTarget := 0;
      }
    }
  }

  /** A second `unmap` after a `map`/`unmap` pair does nothing, and neither does an `unmap` before any `map`. */
  method MapUnmapUnmap(b: BufferObject) returns (first: bool, second: bool)
    requires b.mappedTarget == 0
    modifies b`mappedTarget
    ensures !second && b.mappedTarget == 0
    ensures first <==> b.target != 0
  {
    var idle := b.Unmap();
    assert !idle;
    var _ := b.Map();
    first := b.Unmap();
    second := b.Unmap();
  }
}
