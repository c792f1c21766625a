/**
  Linking a program from a list of shaders (where 0 stands for a shader that failed to compile
  and is skipped) and looking up a uniform's location in a program.
*/
module Programs {
  import opened Driver

  /** The shaders of `shaders` that `linkProgram` attaches: the non-zero ones. */
  ghost function Attachable(shaders: seq<nat>): set<nat>
  {
    set i | 0 <= i < |shaders| && shaders[i] != 0 :: shaders[i]
  }

  lemma AttachableSnoc(shaders: seq<nat>, i: nat)
    requires i < |shaders|
    ensures Attachable(shaders[..i + 1]) == Attachable(shaders[..i]) + (if shaders[i] != 0 then {shaders[i]} else {})
  {
    assert forall j :: 0 <= j < i ==> shaders[..i + 1][j] == shaders[..i][j];
  }

  /** A shader is attached exactly when it is listed and non-zero. */
  lemma {:induction false} AttachableIffListedNonZero(shaders: seq<nat>, s: nat)
    ensures s in Attachable(shaders) <==> s in shaders && s != 0
  {
    if s in shaders && s != 0 {
      var i :| 0 <= i < |shaders| && shaders[i] == s;
      assert s == shaders[i];
    }
  }

  /**
    `linkProgram(shaders)`: creates a program, attaches every non-zero shader, links, detaches
    them again, and deletes the program and returns 0 when `linked` (the driver's link status)
    is false.
  */
  method LinkProgram(gl: Gl, shaders: seq<nat>, linked: bool) returns (program: nat)
    requires gl.Valid()
    modifies gl`live, gl`next, gl`programShaders, gl`linkedShaders
    ensures gl.Valid()
    ensures program != 0 <==> linked
    ensures linked ==> Handle(Program, program) !in old(gl.live) && gl.live == old(gl.live) + {Handle(Program, program)}
    ensures linked ==> program in gl.linkedShaders && gl.linkedShaders[program] == Attachable(shaders)
    ensures linked ==> program in gl.programShaders && gl.programShaders[program] == {}
    ensures !linked ==> gl.live == old(gl.live)
  {
    program := gl.CreateProgram();
    for i := 0 to |shaders|
      invariant gl.Valid() && Handle(Program, program) in gl.live
      invariant program in gl.programShaders && gl.programShaders[program] == Attachable(shaders[..i])
      invariant gl.live == old(gl.live) + {Handle(Program, program)}
    {
      AttachableSnoc(shaders, i);
      if shaders[i] != 0 {
        gl.AttachShader(program, shaders[i]);
      }
    }
    assert shaders[..|shaders|] == shaders;
    gl.Link(program);
    for i := 0 to |shaders|
      invariant gl.Valid() && program in gl.programShaders
      invariant gl.programShaders[program] == Attachable(shaders) - Attachable(shaders[..i])
      invariant program in gl.linkedShaders && gl.linkedShaders[program] == Attachable(shaders)
      invariant gl.live == old(gl.live) + {Handle(Program, program)}
    {
      AttachableSnoc(shaders, i);
      if shaders[i] != 0 {
        gl.DetachShader(program, shaders[i]);
      }
    }
    if !linked {
      gl.Delete(Program, program);
      program := 0;
    }
  }

  /** `SimpleUniform`: a named uniform and its location in the program it was last looked up in (-1: none). */
  class SimpleUniform {
    const name: string
    var location: int

    constructor (name: string)
      ensures this.name == name && location == -1
    {
      this.name := name;
      location := -1;
    }

    /**
      `init(program)`: looks the uniform up in a non-zero program (`found` is the driver's
      answer, -1 when the program has no such uniform) and reports whether it has a location.
    */
    method Init(program: nat, found: int) returns (ok: bool)
      modifies this`location
      ensures location == if program > 0 then found else -1
      ensures ok <==> program > 0 && found > -1
    {
      if program > 0 {
        location := found;
      } else {
        location := -1;
      }
      ok := location > -1;
    }
  }
}
