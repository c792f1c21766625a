/**
  Move-only owners of a single driver handle: `AutoShader` (a shader object) and
  `SamplerObject` (a sampler object). Each deletes its handle on `cleanup`; a move hands the
  handle over and leaves the source holding 0.
*/
module HandleOwners {
  import opened Driver

  class AutoShader {
    var shader: nat

    ghost function Owned(): set<Handle>
      reads this
    {
      if shader != 0 then {Handle(Shader, shader)} else {}
    }

    ghost predicate Valid(gl: Gl)
      reads this, gl
    {
      gl.Valid() && Owned() <= gl.live
    }

    /** `AutoShader(s)`: takes ownership of the shader `s` (0 for none). */
    constructor (s: nat)
      ensures shader == s
    {
      shader := s;
    }

    /** The move constructor: takes `rhs`'s shader and leaves it with none. */
    constructor MoveFrom(rhs: AutoShader)
      modifies rhs
      ensures shader == old(rhs.shader) && rhs.shader == 0
      ensures Owned() == old(rhs.Owned()) && rhs.Owned() == {}
    {
      shader := rhs.shader;
      rhs.shader := 0;
    }

    method Cleanup(gl: Gl)
      requires Valid(gl)
      modifies this, gl`live
      ensures Valid(gl) && shader == 0
      ensures gl.live == old(gl.live) - old(Owned())
    {
      if shader != 0 {
        gl.Delete(Shader, shader);
        shader := 0;
      }
    }

    /**
      The move assignment: a self-assignment changes nothing; otherwise the destination's shader
      is deleted, `rhs`'s is handed over and `rhs` is left with none.
    */
    method MoveAssign(gl: Gl, rhs: AutoShader)
      requires Valid(gl) && rhs.Valid(gl)
      requires this != rhs ==> Owned() !! rhs.Owned()
      modifies this, rhs, gl`live
      ensures Valid(gl)
      ensures this != rhs ==> shader == old(rhs.shader) && rhs.shader == 0
      ensures this != rhs ==> gl.live == old(gl.live) - old(Owned())
      ensures this == rhs ==> shader == old(shader) && gl.live == old(gl.live)
    {
      if this != rhs {
        Cleanup(gl);
        shader := rhs.shader;
        rhs.shader := 0;
      }
    }
  }

  class SamplerObject {
    var id: nat

    ghost function Owned(): set<Handle>
      reads this
    {
      if id != 0 then {Handle(Sampler, id)} else {}
    }

    ghost predicate Valid(gl: Gl)
      reads this, gl
    {
      gl.Valid() && Owned() <= gl.live
    }

    constructor ()
      ensures id == 0 && Owned() == {}
    {
      id := 0;
    }

    /** The move constructor: takes `that`'s sampler and leaves it with none. */
    constructor MoveFrom(that: SamplerObject)
      modifies that
      ensures id == old(that.id) && that.id == 0
      ensures Owned() == old(that.Owned()) && that.Owned() == {}
    {
      id := that.id;
      that.id := 0;
    }

    method Cleanup(gl: Gl)
      requires Valid(gl)
      modifies this, gl`live
      ensures Valid(gl) && id == 0
      ensures gl.live == old(gl.live) - old(Owned())
    {
      if id != 0 {
        gl.Delete(Sampler, id);
        id := 0;
      }
    }

    /** `allocate`: deletes the previous sampler, then creates a fresh one. */
    method Allocate(gl: Gl)
      requires Valid(gl)
      modifies this, gl`live, gl`next
      ensures Valid(gl) && id != 0 && Handle(Sampler, id) !in old(gl.live)
      ensures gl.live == (old(gl.live) - old(Owned())) + Owned()
    {
      Cleanup(gl);
      id := gl.Gen(Sampler);
    }

    /**
      The move assignment: a self-assignment changes nothing; otherwise the destination's sampler
      is deleted, `that`'s is handed over and `that` is left with none.
    */
    method MoveAssign(gl: Gl, that: SamplerObject)
      requires Valid(gl) && that.Valid(gl)
      requires this != that ==> Owned() !! that.Owned()
      modifies this, that, gl`live
      ensures Valid(gl)
      ensures this != that ==> id == old(that.id) && that.id == 0
      ensures this != that ==> gl.live == old(gl.live) - old(Owned())
      ensures this == that ==> id == old(id) && gl.live == old(gl.live)
    {
      if this != that {
        Cleanup(gl);
        id := that.id;
        that.id := 0;
      }
    }
  }

  /**
    Two samplers, one moved into the other: exactly the destination's old sampler is deleted,
    the source's survives in the destination, and destroying both then deletes everything.
  */
  method SamplerMoveReleasesAll(gl: Gl) returns (a: SamplerObject, b: SamplerObject)
    requires gl.Valid()
    modifies gl`live, gl`next
    ensures gl.live == old(gl.live)
    ensures a.id == 0 && b.id == 0
  {
    a := new SamplerObject();
    b := new SamplerObject();
    a.Allocate(gl);
    b.Allocate(gl);
    a.MoveAssign(gl, b);
    assert gl.live == (old(gl.live) + a.Owned());
    a.Cleanup(gl);
    b.Cleanup(gl);
  }
}
