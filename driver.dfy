/**
  The native graphics API and window toolkit as this library sees them.

  Every `glGen*` / `glfwCreateWindow` call hands out a fresh non-zero id and every
  `glDelete*` / `glfwDestroyWindow` call retires one; the ghost set `live` records which
  handles exist. Besides that, the object `Gl` records the pieces of driver state the
  framebuffer and texture allocators promise something about (texture sampling parameters,
  framebuffer attachments and draw-buffer lists, the bound framebuffer), and the thread's
  ambient "current context".
*/
module Driver {

  // Enumerant values of the graphics API used by the model.
  const GL_NONE: nat := 0
  const GL_TEXTURE_2D: nat := 0x0DE1
  const GL_TEXTURE_3D: nat := 0x806F
  const GL_TEXTURE_2D_ARRAY: nat := 0x8C1A
  const GL_TEXTURE_CUBE_MAP: nat := 0x8513
  const GL_TEXTURE_CUBE_MAP_POSITIVE_X: nat := 0x8515
  const GL_NEAREST: nat := 0x2600
  const GL_NEAREST_MIPMAP_NEAREST: nat := 0x2700
  const GL_COLOR_ATTACHMENT0: nat := 0x8CE0
  const GL_DEPTH_ATTACHMENT: nat := 0x8D00

  /** The object namespaces of the driver. */
  datatype Kind = Texture | Framebuffer | Buffer | Query | Shader | Program | Sampler | Window

  datatype Handle = Handle(kind: Kind, id: nat)

  /** What `glFramebufferTexture2D` bound to one attachment point of a framebuffer. */
  datatype Attachment = Attachment(target: nat, texture: nat, level: nat)

  /** The sampling parameters this library sets on every texture it creates. */
  datatype TexParams = TexParams(minFilter: nat, maxLevel: int)

  /** Minification filter used for a mip chain of `levels` levels. */
  function MinFilterFor(levels: nat): (f: nat)
    ensures f == GL_NEAREST <==> levels <= 1
  {
    if levels > 1 then GL_NEAREST_MIPMAP_NEAREST else GL_NEAREST
  }

  /** `after` agrees with `before` on every attachment point other than `point`. */
  ghost predicate SameAttachmentsExcept(before: map<(nat, nat), Attachment>, after: map<(nat, nat), Attachment>, point: nat)
  {
    forall k :: k in before && k.1 != point ==> k in after && after[k] == before[k]
  }

  /** `after` agrees with `before` on every attachment of a framebuffer outside `fbos`. */
  ghost predicate AttachmentsKeptOutside(before: map<(nat, nat), Attachment>, after: map<(nat, nat), Attachment>, fbos: set<nat>)
  {
    forall k :: k in before && k.0 !in fbos ==> k in after && after[k] == before[k]
  }

  /** `after` agrees with `before` on every attachment of a framebuffer whose id is below `bound`. */
  ghost predicate AttachmentsKeptBelow(before: map<(nat, nat), Attachment>, after: map<(nat, nat), Attachment>, bound: nat)
  {
    forall k :: k in before && k.0 < bound ==> k in after && after[k] == before[k]
  }

  /** `after` agrees with `before` on every key outside `keys`. */
  ghost predicate KeptOutside<V>(before: map<nat, V>, after: map<nat, V>, keys: set<nat>)
  {
    forall k :: k in before && k !in keys ==> k in after && after[k] == before[k]
  }

  /** `after` agrees with `before` on every key below `bound`. */
  ghost predicate KeptBelow<V>(before: map<nat, V>, after: map<nat, V>, bound: nat)
  {
    forall k :: k in before && k < bound ==> k in after && after[k] == before[k]
  }

  /** Two steps that leave the attachments outside `fbos` alone leave them alone together. */
  lemma AttachmentsKeptOutsideTrans(a0: map<(nat, nat), Attachment>, a1: map<(nat, nat), Attachment>,
                                    a2: map<(nat, nat), Attachment>, fbos: set<nat>)
    requires AttachmentsKeptOutside(a0, a1, fbos) && AttachmentsKeptOutside(a1, a2, fbos)
    ensures AttachmentsKeptOutside(a0, a2, fbos)
  {
  }

  /** Two steps that leave the attachments below `bound` alone leave them alone together. */
  lemma AttachmentsKeptBelowTrans(a0: map<(nat, nat), Attachment>, a1: map<(nat, nat), Attachment>,
                                  a2: map<(nat, nat), Attachment>, bound: nat)
    requires AttachmentsKeptBelow(a0, a1, bound) && AttachmentsKeptBelow(a1, a2, bound)
    ensures AttachmentsKeptBelow(a0, a2, bound)
  {
  }

  /** Attachments kept outside `fbos` are kept below every bound that all of `fbos` reach. */
  lemma AttachmentsKeptBelowOutside(before: map<(nat, nat), Attachment>, after: map<(nat, nat), Attachment>,
                                    fbos: set<nat>, bound: nat)
    requires AttachmentsKeptOutside(before, after, fbos)
    requires forall f :: f in fbos ==> bound <= f
    ensures AttachmentsKeptBelow(before, after, bound)
  {
  }

  /** A map kept outside `keys` is kept below every bound that all of `keys` reach. */
  lemma KeptBelowOutside<V>(before: map<nat, V>, after: map<nat, V>, keys: set<nat>, bound: nat)
    requires KeptOutside(before, after, keys)
    requires forall f :: f in keys ==> bound <= f
    ensures KeptBelow(before, after, bound)
  {
  }

  /** Keeping a map below `b0` and then below `b1` keeps it below the smaller of the two. */
  lemma KeptBelowTrans<V>(m0: map<nat, V>, m1: map<nat, V>, m2: map<nat, V>, b0: nat, b1: nat, bound: nat)
    requires KeptBelow(m0, m1, b0) && KeptBelow(m1, m2, b1) && bound <= b0 && bound <= b1
    ensures KeptBelow(m0, m2, bound)
  {
  }

  /** `ids` is strictly increasing. */
  ghost predicate Increasing(ids: seq<nat>)
  {
    forall i, j :: 0 <= i < j < |ids| ==> ids[i] < ids[j]
  }

  /** The handles of kind `kind` named by the non-zero entries of `ids`. */
  ghost function HandlesOf(kind: Kind, ids: seq<nat>): set<Handle>
  {
    set i | 0 <= i < |ids| && ids[i] != 0 :: Handle(kind, ids[i])
  }

  lemma HandlesOfSnoc(kind: Kind, ids: seq<nat>, id: nat)
    requires id != 0
    ensures HandlesOf(kind, ids + [id]) == HandlesOf(kind, ids) + {Handle(kind, id)}
  {
    var ids' := ids + [id];
    assert forall i :: 0 <= i < |ids| ==> ids'[i] == ids[i];
    assert ids'[|ids|] == id;
  }

  lemma HandlesOfStep(kind: Kind, ids: seq<nat>, i: nat)
    requires i < |ids|
    ensures HandlesOf(kind, ids[..i + 1])
      == HandlesOf(kind, ids[..i]) + (if ids[i] != 0 then {Handle(kind, ids[i])} else {})
  {
    assert forall j :: 0 <= j < i ==> ids[..i + 1][j] == ids[..i][j];
  }

  class Gl {
    ghost var live: set<Handle>
    var next: nat
    var texParams: map<nat, TexParams>
    var attachments: map<(nat, nat), Attachment>
    var drawBuffers: map<nat, seq<nat>>
    var boundFramebuffer: nat
    /** The shaders attached to each program object. */
    var programShaders: map<nat, set<nat>>
    /** The shaders each program object was last linked from. */
    var linkedShaders: map<nat, set<nat>>
    /** The window whose context is current on the calling thread; 0 when none is. */
    var current: nat

    /** Every live handle is non-zero and below the next id to hand out. */
    ghost predicate Valid()
      reads this`live, this`next
    {
      0 < next && forall h :: h in live ==> 0 < h.id < next
    }

    constructor ()
      ensures Valid() && live == {} && current == 0 && boundFramebuffer == 0
    {
      live := {};
      next := 1;
      texParams := map[];
      attachments := map[];
      drawBuffers := map[];
      boundFramebuffer := 0;
      programShaders := map[];
      linkedShaders := map[];
      current := 0;
    }

    /** `glGen*(1, &id)` (and `glfwCreateWindow` for kind Window): a fresh non-zero id. */
    method Gen(kind: Kind) returns (id: nat)
      requires Valid()
      modifies this`live, this`next
      ensures Valid()
      ensures 0 < id && old(next) <= id < next
      ensures Handle(kind, id) !in old(live)
      ensures live == old(live) + {Handle(kind, id)}
    {
      id := next;
      next := next + 1;
      live := live + {Handle(kind, id)};
    }

    /** `glGen*(n, ids)`: `n` fresh non-zero ids, in increasing order. */
    method GenN(kind: Kind, n: nat) returns (ids: seq<nat>)
      requires Valid()
      modifies this`live, this`next
      ensures Valid() && old(next) <= next
      ensures |ids| == n && Increasing(ids)
      ensures forall i :: 0 <= i < n ==> 0 < ids[i] && old(next) <= ids[i] < next
      ensures live == old(live) + HandlesOf(kind, ids)
    {
      ids := [];
      while |ids| < n
        invariant Valid() && old(next) <= next
        invariant |ids| <= n && Increasing(ids)
        invariant forall i :: 0 <= i < |ids| ==> 0 < ids[i] && old(next) <= ids[i] < next
        invariant live == old(live) + HandlesOf(kind, ids)
      {
        var id := Gen(kind);
        HandlesOfSnoc(kind, ids, id);
        ids := ids + [id];
      }
    }

    /** `glDelete*(1, &id)`; deleting an id that does not name a live object has no effect. */
    method Delete(kind: Kind, id: nat)
      requires Valid()
      modifies this`live
      ensures Valid()
      ensures live == old(live) - {Handle(kind, id)}
    {
      live := live - {Handle(kind, id)};
    }

    /** The `glTexParameteri` calls that set filtering and the mip range of a texture. */
    method SetTexParams(texture: nat, p: TexParams)
      modifies this`texParams
      ensures texParams == old(texParams)[texture := p]
    {
      texParams := texParams[texture := p];
    }

    /** `glBindFramebuffer(GL_FRAMEBUFFER, fbo)`. */
    method BindFramebuffer(fbo: nat)
      modifies this`boundFramebuffer
      ensures boundFramebuffer == fbo
    {
      boundFramebuffer := fbo;
    }

    /** `glFramebufferTexture2D(GL_FRAMEBUFFER, point, target, texture, level)` on the bound framebuffer. */
    method FramebufferTexture(point: nat, target: nat, texture: nat, level: nat)
      modifies this`attachments
      ensures attachments == old(attachments)[(boundFramebuffer, point) := Attachment(target, texture, level)]
    {
      attachments := attachments[(boundFramebuffer, point) := Attachment(target, texture, level)];
    }

    /** `glDrawBuffers(n, buffers)` on the bound framebuffer. */
    method DrawBuffers(buffers: seq<nat>)
      modifies this`drawBuffers
      ensures drawBuffers == old(drawBuffers)[boundFramebuffer := buffers]
    {
      drawBuffers := drawBuffers[boundFramebuffer := buffers];
    }

    /** `glCreateProgram()`: a fresh program object with no shader attached. */
    method CreateProgram() returns (program: nat)
      requires Valid()
      modifies this`live, this`next, this`programShaders
      ensures Valid()
      ensures 0 < program && Handle(Program, program) !in old(live)
      ensures live == old(live) + {Handle(Program, program)}
      ensures programShaders == old(programShaders)[program := {}]
    {
      program := Gen(Program);
      programShaders := programShaders[program := {}];
    }

    /** `glAttachShader(program, shader)`; attaching to an unknown program has no effect. */
    method AttachShader(program: nat, shader: nat)
      modifies this`programShaders
      ensures program in old(programShaders) ==> programShaders == old(programShaders)[program := old(programShaders)[program] + {shader}]
      ensures program !in old(programShaders) ==> programShaders == old(programShaders)
    {
      if program in programShaders {
        programShaders := programShaders[program := programShaders[program] + {shader}];
      }
    }

    /** `glDetachShader(program, shader)`; detaching from an unknown program has no effect. */
    method DetachShader(program: nat, shader: nat)
      modifies this`programShaders
      ensures program in old(programShaders) ==> programShaders == old(programShaders)[program := old(programShaders)[program] - {shader}]
      ensures program !in old(programShaders) ==> programShaders == old(programShaders)
    {
      if program in programShaders {
        programShaders := programShaders[program := programShaders[program] - {shader}];
      }
    }

    /** `glLinkProgram(program)`: records the shaders attached at this moment. */
    method Link(program: nat)
      modifies this`linkedShaders
      ensures linkedShaders == old(linkedShaders)[program := if program in programShaders then programShaders[program] else {}]
    {
      linkedShaders := linkedShaders[program := if program in programShaders then programShaders[program] else {}];
    }

    /** `glfwMakeContextCurrent(window)`; 0 unbinds. */
    method MakeContextCurrent(window: nat)
      modifies this`current
      ensures current == window
    {
      current := window;
    }
  }
}
