/**
  `RenderContextStack`: a stack of snapshots of the thread's current context. `push` stores a
  snapshot, `apply` makes the top one current again, `pop` does that and then drops it, and
  destroying the stack drops every snapshot but the first and then pops that one.
*/
module ContextStack {
  import opened Driver

  /** What a client does with the stack and the current context. */
  datatype ContextOp = Push | Apply | Pop | MakeCurrent(window: nat)

  /** The snapshots (top last) and the current context. */
  datatype ContextState = ContextState(stack: seq<nat>, current: nat)

  function StepContext(s: ContextState, op: ContextOp): (r: ContextState)
    // `push` stores the current context and changes nothing else
    ensures op == Push ==> r == ContextState(s.stack + [s.current], s.current)
    // `apply` and `pop` on an empty stack do nothing
    ensures op != Push && !op.MakeCurrent? && s.stack == [] ==> r == s
    // `apply` restores the top and keeps the stack; `pop` restores the top and drops it
    ensures op == Apply && s.stack != [] ==> r == ContextState(s.stack, s.stack[|s.stack| - 1])
    ensures op == Pop && s.stack != [] ==> r == ContextState(s.stack[..|s.stack| - 1], s.stack[|s.stack| - 1])
    ensures op.MakeCurrent? ==> r == s.(current := op.window)
  {
    match op
    case Push => s.(stack := s.stack + [s.current])
    case Apply => if s.stack == [] then s else s.(current := s.stack[|s.stack| - 1])
    case Pop => if s.stack == [] then s else ContextState(s.stack[..|s.stack| - 1], s.stack[|s.stack| - 1])
    case MakeCurrent(w) => s.(current := w)
  }

  function RunContext(s: ContextState, ops: seq<ContextOp>): ContextState
    decreases ops
  {
    if ops == [] then s else RunContext(StepContext(s, ops[0]), ops[1..])
  }

  lemma {:induction false} RunContextAppend(s: ContextState, a: seq<ContextOp>, b: seq<ContextOp>)
    ensures RunContext(s, a + b) == RunContext(RunContext(s, a), b)
    decreases a
  {
    if a != [] {
      assert (a + b)[0] == a[0] && (a + b)[1..] == a[1..] + b;
      RunContextAppend(StepContext(s, a[0]), a[1..], b);
    } else {
      assert a + b == b;
    }
  }

  /**
    A well-nested use of the stack: a bracket is a `push`, a nested body and a matching `pop`;
    between brackets a client may switch contexts or re-apply the top snapshot.
  */
  datatype Block = Switch(window: nat) | Reapply | Bracket(body: seq<Block>)

  function Flatten(blocks: seq<Block>): seq<ContextOp>
    decreases blocks
  {
    if blocks == [] then []
    else
      var head :=
        match blocks[0]
        case Switch(w) => [MakeCurrent(w)]
        case Reapply => [Apply]
        case Bracket(body) => [Push] + Flatten(body) + [Pop];
      head + Flatten(blocks[1..])
  }

  /** A well-nested sequence leaves the stack as it found it. */
  lemma {:induction false} NestedKeepsStack(s: ContextState, blocks: seq<Block>)
    ensures RunContext(s, Flatten(blocks)).stack == s.stack
    decreases blocks, 0
  {
    if blocks != [] {
      var rest := Flatten(blocks[1..]);
      match blocks[0]
      case Switch(w) =>
        RunContextAppend(s, [MakeCurrent(w)], rest);
        NestedKeepsStack(StepContext(s, MakeCurrent(w)), blocks[1..]);
      case Reapply =>
        RunContextAppend(s, [Apply], rest);
        NestedKeepsStack(StepContext(s, Apply), blocks[1..]);
      case Bracket(body) =>
        BracketRestores(s, body);
        RunContextAppend(s, [Push] + Flatten(body) + [Pop], rest);
        NestedKeepsStack(s, blocks[1..]);
    }
  }

  /**
    Nested `push`/`pop` pairs restore in LIFO order: whatever a well-nested body does to the
    current context, the `pop` that closes its `push` makes current again the context that
    was current at that `push`, and leaves the stack as it was.
  */
  lemma {:induction false} BracketRestores(s: ContextState, body: seq<Block>)
    ensures RunContext(s, [Push] + Flatten(body) + [Pop]) == s
    decreases body, 1
  {
    var pushed := StepContext(s, Push);
    RunContextAppend(s, [Push], Flatten(body) + [Pop]);
    assert [Push] + Flatten(body) + [Pop] == [Push] + (Flatten(body) + [Pop]);
    RunContextAppend(pushed, Flatten(body), [Pop]);
    NestedKeepsStack(pushed, body);
    var inner := RunContext(pushed, Flatten(body));
    assert inner.stack == s.stack + [s.current];
    assert (s.stack + [s.current])[..|s.stack|] == s.stack;
  }

  class RenderContextStack {
    /** The snapshots, top last. */
    var stack: seq<nat>

    constructor ()
      ensures stack == []
    {
      stack := [];
    }

    /** `push`: stores the current context; the current context is not changed. */
    method Push(gl: Gl)
      modifies this
      ensures ContextState(stack, gl.current) == StepContext(ContextState(old(stack), gl.current), ContextOp.Push)
    {
      stack := stack + [gl.current];
    }

    /** `apply`: makes the top snapshot current again; the stack is not changed. */
    method Apply(gl: Gl)
      modifies gl`current
      ensures ContextState(stack, gl.current) == StepContext(ContextState(stack, old(gl.current)), ContextOp.Apply)
    {
      if stack != [] {
        gl.MakeContextCurrent(stack[|stack| - 1]);
      }
    }

    /** `pop`: makes the top snapshot current again and drops it. */
    method Pop(gl: Gl)
      modifies this, gl`current
      ensures ContextState(stack, gl.current) == StepContext(ContextState(old(stack), old(gl.current)), ContextOp.Pop)
    {
      if stack != [] {
        gl.MakeContextCurrent(stack[|stack| - 1]);
        stack := stack[..|stack| - 1];
      }
    }

    /**
      The destructor: drops snapshots without restoring them until one is left, then pops that
      one, so the context current at the first `push` is current again.
    */
    method Destroy(gl: Gl)
      modifies this, gl`current
      ensures stack == []
      ensures old(stack) != [] ==> gl.current == old(stack)[0]
      ensures old(stack) == [] ==> gl.current == old(gl.current)
    {
      while |stack| > 1
        invariant |stack| <= |old(stack)| && stack == old(stack)[..|stack|]
        invariant old(stack) != [] ==> 0 < |stack|
        invariant gl.current == old(gl.current)
        decreases |stack|
      {
        stack := stack[..|stack| - 1];
      }
      if |stack| == 1 {
        Pop(gl);
      }
    }
  }
}
