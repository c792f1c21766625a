/**
  `TextureObject`: a texture descriptor plus a flag saying whether this object created the
  texture (and must delete it) or only attached to one created elsewhere.
*/
module Textures {
  import opened Driver

  /** 2^32: `uint32_t` arithmetic and casts to it wrap modulo this. */
  const U32_MODULUS: nat := 0x1_0000_0000

  /** A cast to `uint32_t`, from a signed or an unsigned value. */
  function U32(x: int): (r: nat)
    ensures r < U32_MODULUS
    ensures 0 <= x < U32_MODULUS ==> r == x
  {
    x % U32_MODULUS
  }

  /** A cast of a `uint32_t` to `GLint` (two's complement). */
  function I32(x: nat): (r: int)
    requires x < U32_MODULUS
    ensures -0x8000_0000 <= r < 0x8000_0000
    ensures U32(r) == x
  {
    if x < 0x8000_0000 then x else x - U32_MODULUS
  }

  datatype TextureDesc = TextureDesc(id: nat, target: nat, internalFormat: nat, width: nat, height: nat, depth: nat, mips: nat)

  /** The descriptor `cleanup` leaves: every field 0 or `GL_NONE`. */
  const EmptyDesc := TextureDesc(0, GL_NONE, GL_NONE, 0, 0, 0, 0)

  /** What `glGetTex(Level)Parameteriv` answers for an existing texture, as `GLint` values. */
  datatype TexQuery = TexQuery(width: int, height: int, depth: int, maxLevel: int, internalFormat: nat)

  /** The sampling parameters `applyDefaultParameters` sets for a texture of `mips` levels. */
  function DefaultParams(mips: nat): (p: TexParams)
    requires mips < U32_MODULUS
    ensures p.minFilter == GL_NEAREST <==> mips <= 1
    ensures 0 < mips < 0x8000_0000 ==> p.maxLevel == mips - 1
  {
    TexParams(MinFilterFor(mips), I32(mips) - 1)
  }

  /** The descriptor `attach(target, id)` builds from the driver's answers `q`. */
  function AttachedDesc(target: nat, id: nat, q: TexQuery): (d: TextureDesc)
    ensures d.id == id && d.target == target && d.internalFormat == q.internalFormat
    ensures d.width == U32(q.width) && d.height == U32(q.height)
    // 6 faces for a cube map, the queried layer count for array and 3D textures, 1 otherwise
    ensures target == GL_TEXTURE_CUBE_MAP ==> d.depth == 6
    ensures target == GL_TEXTURE_2D_ARRAY || target == GL_TEXTURE_3D ==> d.depth == U32(q.depth)
    ensures target !in {GL_TEXTURE_CUBE_MAP, GL_TEXTURE_2D_ARRAY, GL_TEXTURE_3D} ==> d.depth == 1
    // the level count is one more than the maximum level, in `uint32_t`
    ensures 0 <= q.maxLevel < 0x7FFF_FFFF ==> d.mips == q.maxLevel + 1
  {
    var depth :=
      if target == GL_TEXTURE_2D_ARRAY || target == GL_TEXTURE_3D then U32(q.depth)
      else if target == GL_TEXTURE_CUBE_MAP then 6
      else 1;
    TextureDesc(id, target, q.internalFormat, U32(q.width), U32(q.height), depth, (U32(q.maxLevel) + 1) % U32_MODULUS)
  }

  /** The descriptors `allocate2D`, `allocate2DArray` and `allocateCube` produce. */
  ghost predicate IsAllocated(d: TextureDesc)
  {
    && d.width < U32_MODULUS && d.height < U32_MODULUS && d.depth < U32_MODULUS && d.mips < U32_MODULUS
    && (d.target == GL_TEXTURE_2D ==> d.depth == 1)
    && (d.target == GL_TEXTURE_CUBE_MAP ==> d.depth == 6 && d.height == d.width)
    && d.target in {GL_TEXTURE_2D, GL_TEXTURE_2D_ARRAY, GL_TEXTURE_CUBE_MAP}
  }

  /** What the driver reports for a texture created with descriptor `d` and default parameters `p`. */
  function QueryOf(d: TextureDesc, p: TexParams): TexQuery
    requires d.width < U32_MODULUS && d.height < U32_MODULUS && d.depth < U32_MODULUS
  {
    TexQuery(I32(d.width), I32(d.height), I32(d.depth), p.maxLevel, d.internalFormat)
  }

  /**
    Attaching to a texture this library allocated reads back the descriptor it was allocated
    with, whatever its sizes and level count (the casts to and from `GLint` cancel out).
  */
  lemma AttachReadsBackAllocation(d: TextureDesc)
    requires IsAllocated(d)
    ensures AttachedDesc(d.target, d.id, QueryOf(d, DefaultParams(d.mips))) == d
  {
    var q := QueryOf(d, DefaultParams(d.mips));
    assert U32(q.maxLevel) == if d.mips == 0 then U32_MODULUS - 1 else d.mips - 1;
  }

  class TextureObject {
    var desc: TextureDesc
    var owned: bool

    /** The texture this object must delete: its own, and only when it created it. */
    ghost function Owned(): set<Handle>
      reads this
    {
      if owned && desc.id != 0 then {Handle(Texture, desc.id)} else {}
    }

    ghost predicate Valid(gl: Gl)
      reads this, gl
    {
      gl.Valid() && Owned() <= gl.live
    }

    predicate IsEmpty()
      reads this
    {
      desc.id == 0
    }

    /** The default constructor: not owned, and `cleanup` zeroes the descriptor. */
    constructor ()
      ensures desc == EmptyDesc && !owned && Owned() == {}
    {
      desc := EmptyDesc;
      owned := false;
    }

    /**
      `cleanup`: deletes the texture only when this object owns it and the id is non-zero, and
      always resets the descriptor. The ownership flag is left as it was.
    */
    method Cleanup(gl: Gl)
      requires Valid(gl)
      modifies this`desc, gl`live
      ensures Valid(gl) && desc == EmptyDesc && Owned() == {}
      ensures gl.live == old(gl.live) - old(Owned())
    {
      if owned && desc.id != 0 {
        gl.Delete(Texture, desc.id);
      }
      desc := EmptyDesc;
    }

    /**
      `attach(target, id)`: releases what this object held, then describes the existing texture
      `id` without taking ownership of it; `q` is what the driver reports about that texture.
    */
    method Attach(gl: Gl, target: nat, id: nat, q: TexQuery)
      requires Valid(gl)
      modifies this, gl`live
      ensures Valid(gl) && !owned && Owned() == {}
      ensures desc == AttachedDesc(target, id, q)
      ensures gl.live == old(gl.live) - old(Owned())
    {
      Cleanup(gl);
      owned := false;
      desc := AttachedDesc(target, id, q);
    }

    /**
      The shared body of the `allocate*` members: `cleanup`, then a fresh owned texture with
      descriptor `d` (its id aside) and the default sampling parameters.
    */
    method AllocateAs(gl: Gl, d: TextureDesc)
      requires Valid(gl) && d.mips < U32_MODULUS
      modifies this, gl`live, gl`next, gl`texParams
      ensures Valid(gl) && owned && desc == d.(id := desc.id) && desc.id != 0
      ensures Owned() == {Handle(Texture, desc.id)} && Handle(Texture, desc.id) !in old(gl.live)
      ensures gl.live == (old(gl.live) - old(Owned())) + Owned()
      ensures gl.texParams == old(gl.texParams)[desc.id := DefaultParams(d.mips)]
    {
      Cleanup(gl);
      owned := true;
      var id := gl.Gen(Texture);
      desc := d.(id := id);
      gl.SetTexParams(id, DefaultParams(d.mips));
    }

    /** `allocate2D(f, w, h, m)`: sizes are cast to `uint32_t`; the depth is 1. */
    method Allocate2D(gl: Gl, internalFormat: nat, w: nat, h: nat, m: nat)
      requires Valid(gl)
      modifies this, gl`live, gl`next, gl`texParams
      ensures Valid(gl) && owned && desc.id != 0 && IsAllocated(desc)
      ensures desc == TextureDesc(desc.id, GL_TEXTURE_2D, internalFormat, U32(w), U32(h), 1, U32(m))
      ensures Handle(Texture, desc.id) !in old(gl.live)
      ensures gl.live == (old(gl.live) - old(Owned())) + Owned()
      ensures gl.texParams == old(gl.texParams)[desc.id := DefaultParams(desc.mips)]
    {
      AllocateAs(gl, TextureDesc(0, GL_TEXTURE_2D, internalFormat, U32(w), U32(h), 1, U32(m)));
    }

    /** `allocate2DArray(f, w, h, l, m)`: the depth is the layer count `l`. */
    method Allocate2DArray(gl: Gl, internalFormat: nat, w: nat, h: nat, l: nat, m: nat)
      requires Valid(gl)
      modifies this, gl`live, gl`next, gl`texParams
      ensures Valid(gl) && owned && desc.id != 0 && IsAllocated(desc)
      ensures desc == TextureDesc(desc.id, GL_TEXTURE_2D_ARRAY, internalFormat, U32(w), U32(h), U32(l), U32(m))
      ensures Handle(Texture, desc.id) !in old(gl.live)
      ensures gl.live == (old(gl.live) - old(Owned())) + Owned()
      ensures gl.texParams == old(gl.texParams)[desc.id := DefaultParams(desc.mips)]
    {
      AllocateAs(gl, TextureDesc(0, GL_TEXTURE_2D_ARRAY, internalFormat, U32(w), U32(h), U32(l), U32(m)));
    }

    /** `allocateCube(f, w, m)`: square faces, and a depth of 6. */
    method AllocateCube(gl: Gl, internalFormat: nat, w: nat, m: nat)
      requires Valid(gl)
      modifies this, gl`live, gl`next, gl`texParams
      ensures Valid(gl) && owned && desc.id != 0 && IsAllocated(desc)
      ensures desc == TextureDesc(desc.id, GL_TEXTURE_CUBE_MAP, internalFormat, U32(w), U32(w), 6, U32(m))
      ensures Handle(Texture, desc.id) !in old(gl.live)
      ensures gl.live == (old(gl.live) - old(Owned())) + Owned()
      ensures gl.texParams == old(gl.texParams)[desc.id := DefaultParams(desc.mips)]
    {
      AllocateAs(gl, TextureDesc(0, GL_TEXTURE_CUBE_MAP, internalFormat, U32(w), U32(w), 6, U32(m)));
    }

    /**
      The move constructor as written: copies the descriptor and zeroes the source's id, but
      the ownership flag keeps its default `false`, so nobody deletes an owned texture any more.
    */
    constructor MoveFromAsWritten(rhs: TextureObject)
      modifies rhs`desc
      ensures desc == old(rhs.desc) && !owned && Owned() == {}
      ensures rhs.desc == old(rhs.desc).(id := 0) && rhs.Owned() == {}
    {
      desc := rhs.desc;
      owned := false;
      rhs.desc := rhs.desc.(id := 0);
    }

    /** The move constructor with the ownership flag moved along with the descriptor. */
    constructor MoveFrom(rhs: TextureObject)
      modifies rhs`desc
      ensures desc == old(rhs.desc) && owned == old(rhs.owned)
      ensures Owned() == old(rhs.Owned())
      ensures rhs.desc == old(rhs.desc).(id := 0) && rhs.Owned() == {}
    {
      desc := rhs.desc;
      owned := rhs.owned;
      rhs.desc := rhs.desc.(id := 0);
    }

    /**
      The move assignment as written: releases the destination, copies the descriptor and zeroes
      the source's id, but keeps the destination's own ownership flag.
    */
    method MoveAssignAsWritten(gl: Gl, rhs: TextureObject)
      requires Valid(gl) && rhs.Valid(gl)
      modifies this`desc, rhs`desc, gl`live
      ensures this != rhs ==> desc == old(rhs.desc) && owned == old(owned) && rhs.desc == old(rhs.desc).(id := 0)
      ensures this != rhs ==> gl.live == old(gl.live) - old(Owned())
      ensures this == rhs ==> desc == old(desc) && gl.live == old(gl.live)
    {
      if this != rhs {
        Cleanup(gl);
        desc := rhs.desc;
        rhs.desc := rhs.desc.(id := 0);
      }
    }

    /** The move assignment with the ownership flag moved along with the descriptor. */
    method MoveAssign(gl: Gl, rhs: TextureObject)
      requires Valid(gl) && rhs.Valid(gl)
      requires this != rhs ==> Owned() !! rhs.Owned()
      modifies this`desc, this`owned, rhs`desc, gl`live
      ensures Valid(gl)
      ensures this != rhs ==> desc == old(rhs.desc) && owned == old(rhs.owned) && rhs.desc == old(rhs.desc).(id := 0)
      ensures this != rhs ==> Owned() == old(rhs.Owned()) && rhs.Owned() == {}
      ensures this != rhs ==> gl.live == old(gl.live) - old(Owned())
      ensures this == rhs ==> desc == old(desc) && owned == old(owned) && gl.live == old(gl.live)
    {
      if this != rhs {
        Cleanup(gl);
        desc := rhs.desc;
        owned := rhs.owned;
        rhs.desc := rhs.desc.(id := 0);
      }
    }
  }

  /** An allocated texture moved into a new object with the move constructor as written is left owned by nobody. */
  method MoveConstructLeak(gl: Gl) returns (a: TextureObject, b: TextureObject, leaked: Handle)
    requires gl.Valid()
    modifies gl`live, gl`next, gl`texParams
    ensures leaked in gl.live && leaked !in a.Owned() && leaked !in b.Owned()
    ensures b.desc.id == leaked.id
  {
    a := new TextureObject();
    a.Allocate2D(gl, 0x8058, 4, 4, 1);
    leaked := Handle(Texture, a.desc.id);
    b := new TextureObject.MoveFromAsWritten(a);
  }

  /**
    An owning object that is move-assigned, with the assignment as written, from an object that
    only attached to texture `t`, now claims `t` and would delete it on `cleanup`.
  */
  method MoveAssignTakesBorrowed(gl: Gl, t: nat, q: TexQuery) returns (a: TextureObject, b: TextureObject)
    requires gl.Valid() && t != 0
    modifies gl`live, gl`next, gl`texParams
    ensures !a.owned && b.owned && b.desc.id == t
    ensures Handle(Texture, t) in b.Owned()
  {
    a := new TextureObject();
    a.Attach(gl, GL_TEXTURE_2D, t, q);
    b := new TextureObject();
    b.Allocate2D(gl, 0x8058, 4, 4, 1);
    b.MoveAssignAsWritten(gl, a);
  }
}
