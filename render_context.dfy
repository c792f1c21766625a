/**
  `RenderContext`: an invisible 1x1 window whose context is either standalone or shares objects
  with the context current at creation. Creation is bracketed by a `RenderContextStack`, so the
  caller's current context survives it, whether creation succeeds or throws.
*/
module RenderContexts {
  import opened Wrappers
  import opened Driver
  import opened ContextStack

  const NO_CURRENT_WINDOW := "No current GLFW window found."
  const WINDOW_CREATION_FAILED := "Failed to create shared GLFW window."

  class RenderContext {
    /** The window owning the context; 0 once destroyed. */
    var window: nat
    /** The window whose context this one shares objects with; 0 for a standalone context. */
    const sharesWith: nat

    ghost function Owned(): set<Handle>
      reads this
    {
      if window != 0 then {Handle(Window, window)} else {}
    }

    constructor Adopt(window: nat, sharesWith: nat)
      ensures this.window == window && this.sharesWith == sharesWith
    {
      this.window := window;
      this.sharesWith := sharesWith;
    }

    /**
      The constructor `RenderContext(t, w)`: stores the current context, creates the window
      (sharing with the current context when `shared`), makes it current, then switches back.
      `created` is whether the window toolkit manages to create the window. An exception
      (`Failure`) unwinds through the stack's destructor, which restores the context as well.
    */
    static method Create(gl: Gl, shared: bool, created: bool) returns (r: Result<RenderContext, string>)
      requires gl.Valid()
      modifies gl`live, gl`next, gl`current
      ensures gl.Valid() && gl.current == old(gl.current)
      ensures r.Failure? <==> (shared && old(gl.current) == 0) || !created
      ensures r.Failure? ==> gl.live == old(gl.live)
      ensures r.Failure? ==> r.error == if shared && old(gl.current) == 0 then NO_CURRENT_WINDOW else WINDOW_CREATION_FAILED
      ensures r.Success? ==> fresh(r.value) && r.value.window != 0
      ensures r.Success? ==> Handle(Window, r.value.window) !in old(gl.live) && gl.live == old(gl.live) + r.value.Owned()
      ensures r.Success? ==> r.value.sharesWith == if shared then old(gl.current) else 0
    {
      var rcs := new RenderContextStack();
      rcs.Push(gl);
      var share := 0;
      if shared {
        share := gl.current;
        if share == 0 {
          rcs.Destroy(gl);
          return Failure(NO_CURRENT_WINDOW);
        }
      }
      if !created {
        rcs.Destroy(gl);
        return Failure(WINDOW_CREATION_FAILED);
      }
      var w := gl.Gen(Window);
      var rc := new RenderContext.Adopt(w, share);
      rc.MakeCurrent(gl);
      rcs.Pop(gl);
      rcs.Destroy(gl);
      r := Success(rc);
    }

    /** `makeCurrent`: makes this context current; a destroyed one changes nothing. */
    method MakeCurrent(gl: Gl)
      modifies gl`current
      ensures gl.current == if window != 0 then window else old(gl.current)
    {
      if window != 0 {
        gl.MakeContextCurrent(window);
      }
    }

    /** `clearCurrent`: leaves the thread without a current context. */
    static method ClearCurrent(gl: Gl)
      modifies gl`current
      ensures gl.current == 0
    {
      gl.MakeContextCurrent(0);
    }

    /** The destructor: destroys the window, if there is one. */
    method Destroy(gl: Gl)
      requires gl.Valid()
      modifies this`window, gl`live
      ensures gl.Valid() && window == 0
      ensures gl.live == old(gl.live) - old(Owned())
    {
      if window != 0 {
        gl.Delete(Window, window);
        window := 0;
      }
    }
  }
}
